/**
 The objects that are counted (src/thread.h, src/map.h, src/dso.h) and who refers to them:
 threads, address spaces, maps and DSOs are numbered; a count is an explicit number that the
 operations raise and lower, and the multisets of `Held` record who is entitled to a reference
 besides the structures: a caller, or the code between two of its steps.  Each elementary step
 is a function on states, with the lemma that it keeps the invariant.
 */
module Counts {
  import opened Seqs
  import opened RbTrees
  import opened RbLinks
  import Registry

  type Id = nat

  type Pid = Registry.Pid

  /** `maps` is None until thread__init_maps; a thread that is not linked is on a dead list. */
  datatype Thread = Thread(tgid: Pid, tid: Pid, maps: Option<Id>, refs: nat, linked: bool)

  /** struct maps: its tree, in order. */
  datatype Space = Space(refs: nat, entries: seq<Id>)

  /** struct map: the address space whose tree and the one whose list it is on. */
  datatype Map = Map(dso: Id, refs: nat, home: Option<Id>, on: Option<Id>)

  datatype Dso = Dso(name: string, refs: nat, listed: bool)

  datatype Object = AThread(id: Id) | ASpace(id: Id) | AMap(id: Id)

  /** References that no structure accounts for. */
  datatype Held = Held(threads: multiset<Id>, spaces: multiset<Id>, maps: multiset<Id>, dsos: multiset<Id>)

  /** Lists by number; a list not mentioned is empty. */
  type Lists = map<nat, seq<Id>>

  /**
   `index` are the bucket trees, `list` the DSO list, `lists` the map lists by address space,
   which outlive it while maps are linked there, `dead` the dead lists by bucket, `born` all
   objects ever created, and `freed` the deletions in order.
   */
  datatype State = State(
    threads: map<Id, Thread>, spaces: map<Id, Space>, maps: map<Id, Map>, dsos: map<Id, Dso>,
    index: map<Pid, Id>, list: seq<Id>, lists: Lists, dead: Lists,
    held: Held, next: Id, born: set<Object>, freed: seq<Object>)

  function One(b: bool): nat {
    if b then 1 else 0
  }

  // ---------------------------------------------------------------- the invariant

  ghost function Sharers(threads: map<Id, Thread>, x: Id): set<Id> {
    set t | t in threads && threads[t].maps == Some(x)
  }

  ghost function Users(maps: map<Id, Map>, d: Id): set<Id> {
    set m | m in maps && maps[m].dso == d
  }

  /** A thread's count is its tree link plus the handles. */
  ghost predicate ThreadsOk(threads: map<Id, Thread>, held: multiset<Id>, spaces: set<Id>) {
    forall k: Seal :: ThreadsOkBody(k, threads, held, spaces)
  }

  ghost predicate ThreadsOkBody(k: Seal, threads: map<Id, Thread>, held: multiset<Id>, spaces: set<Id>) {
    && (forall t :: t in threads ==> threads[t].refs == One(threads[t].linked) + held[t] > 0)
    && (forall t :: t in threads && threads[t].maps.Some? ==> threads[t].maps.value in spaces)
    && (forall t :: t in held ==> t in threads)
  }

  /** The count of an address space is the number of threads that share it. */
  ghost predicate SpacesOk(spaces: map<Id, Space>, threads: map<Id, Thread>, held: multiset<Id>) {
    forall k: Seal :: SpacesOkBody(k, spaces, threads, held)
  }

  ghost predicate SpacesOkBody(k: Seal, spaces: map<Id, Space>, threads: map<Id, Thread>, held: multiset<Id>) {
    && (forall x :: x in spaces ==> spaces[x].refs == |Sharers(threads, x)| + held[x] > 0)
    && (forall x :: x in held ==> x in spaces)
  }

  /** A map's count is its tree link plus the handles. */
  ghost predicate MapsOk(maps: map<Id, Map>, held: multiset<Id>, dsos: set<Id>) {
    forall k: Seal :: MapsOkBody(k, maps, held, dsos)
  }

  ghost predicate MapsOkBody(k: Seal, maps: map<Id, Map>, held: multiset<Id>, dsos: set<Id>) {
    && (forall m :: m in maps ==> maps[m].refs == One(maps[m].home.Some?) + held[m] > 0 && maps[m].dso in dsos)
    && (forall m :: m in held ==> m in maps)
  }

  /** A map is in the tree of its home and in no other, and then on the list of its home. */
  ghost predicate HomesOk(maps: map<Id, Map>, spaces: map<Id, Space>) {
    forall k: Seal :: HomesOkBody(k, maps, spaces)
  }

  ghost predicate HomesOkBody(k: Seal, maps: map<Id, Map>, spaces: map<Id, Space>) {
    && (forall m :: m in maps && maps[m].home.Some? ==>
          && maps[m].on == maps[m].home
          && maps[m].home.value in spaces && m in spaces[maps[m].home.value].entries)
    && (forall x, m :: x in spaces && m in spaces[x].entries ==> m in maps && maps[m].home == Some(x))
    && (forall x :: x in spaces ==> NoDup(spaces[x].entries))
  }

  /** A DSO's count is its list link plus the maps that refer to it plus the handles. */
  ghost predicate DsosOk(dsos: map<Id, Dso>, maps: map<Id, Map>, held: multiset<Id>) {
    forall k: Seal :: DsosOkBody(k, dsos, maps, held)
  }

  ghost predicate DsosOkBody(k: Seal, dsos: map<Id, Dso>, maps: map<Id, Map>, held: multiset<Id>) {
    && (forall d :: d in dsos ==> dsos[d].refs == One(dsos[d].listed) + |Users(maps, d)| + held[d])
    && (forall d :: d in held ==> d in dsos)
  }

  ghost predicate IndexOk(index: map<Pid, Id>, threads: map<Id, Thread>) {
    forall k: Seal :: IndexOkBody(k, index, threads)
  }

  ghost predicate IndexOkBody(k: Seal, index: map<Pid, Id>, threads: map<Id, Thread>) {
    && (forall p :: p in index ==> index[p] in threads && threads[index[p]].linked && threads[index[p]].tid == p)
    && (forall t :: t in threads && threads[t].linked ==> threads[t].tid in index && index[threads[t].tid] == t)
  }

  /** The DSO list holds the listed DSOs, each name once. */
  ghost predicate ListOk(list: seq<Id>, dsos: map<Id, Dso>) {
    forall k: Seal :: ListOkBody(k, list, dsos)
  }

  ghost predicate ListOkBody(k: Seal, list: seq<Id>, dsos: map<Id, Dso>) {
    && NoDup(list)
    && (forall d :: d in list <==> d in dsos && dsos[d].listed)
    && (forall d, e :: d in list && e in list && dsos[d].name == dsos[e].name ==> d == e)
  }

  function At(lists: Lists, x: nat): seq<Id> {
    if x in lists then lists[x] else []
  }

  /** Every number in `places` is on the list given there, once, and nothing else is on a list. */
  ghost predicate Filed(lists: Lists, places: map<Id, nat>) {
    forall k: Seal :: FiledBody(k, lists, places)
  }

  ghost predicate FiledBody(k: Seal, lists: Lists, places: map<Id, nat>) {
    && (forall x :: NoDup(At(lists, x)))
    && (forall x, m :: m in At(lists, x) <==> m in places && places[m] == x)
  }

  ghost function MapPlaces(maps: map<Id, Map>): map<Id, nat> {
    map m | m in maps && maps[m].on.Some? :: maps[m].on.value
  }

  ghost function DeadPlaces(threads: map<Id, Thread>): map<Id, nat> {
    map t | t in threads && !threads[t].linked :: Registry.Hash(threads[t].tid)
  }

  /** The numbers in use, by kind. */
  datatype Keys = Keys(threads: set<Id>, spaces: set<Id>, maps: set<Id>, dsos: set<Id>)

  function KeysOf(s: State): Keys {
    Keys(s.threads.Keys, s.spaces.Keys, s.maps.Keys, s.dsos.Keys)
  }

  predicate Alive(k: Keys, o: Object) {
    match o
    case AThread(t) => t in k.threads
    case ASpace(x) => x in k.spaces
    case AMap(m) => m in k.maps
  }

  /** Numbers are not reused, and what has been freed is not alive. */
  ghost predicate FreedOk(freed: seq<Object>, born: set<Object>, next: Id, keys: Keys) {
    forall k: Seal :: FreedOkBody(k, freed, born, next, keys)
  }

  ghost predicate FreedOkBody(k: Seal, freed: seq<Object>, born: set<Object>, next: Id, keys: Keys) {
    && NoDup(freed)
    && (forall o :: o in born ==> o.id < next && (Alive(keys, o) <==> o !in freed))
    && (forall o :: Alive(keys, o) || o in freed ==> o in born)
    && (forall d :: d in keys.dsos ==> d < next)
  }

  ghost predicate Inv(s: State) {
    && ThreadsOk(s.threads, s.held.threads, s.spaces.Keys) && SpacesOk(s.spaces, s.threads, s.held.spaces)
    && MapsOk(s.maps, s.held.maps, s.dsos.Keys) && HomesOk(s.maps, s.spaces)
    && DsosOk(s.dsos, s.maps, s.held.dsos)
    && IndexOk(s.index, s.threads) && ListOk(s.list, s.dsos)
    && Filed(s.lists, MapPlaces(s.maps)) && Filed(s.dead, DeadPlaces(s.threads))
    && FreedOk(s.freed, s.born, s.next, KeysOf(s))
  }

  /** The object is in no tree and on no list, and no thread refers to it. */
  ghost predicate Nowhere(s: State, o: Object) {
    match o
    case AThread(t) => (forall p :: p in s.index ==> s.index[p] != t) && (forall b :: t !in At(s.dead, b))
    case ASpace(x) => forall t :: t in s.threads ==> s.threads[t].maps != Some(x)
    case AMap(m) =>
      (forall x :: x in s.spaces ==> m !in s.spaces[x].entries) && (forall x :: m !in At(s.lists, x))
  }

  lemma FreedNowhere(s: State, o: Object)
    requires Inv(s) && o in s.freed
    ensures Nowhere(s, o)
  {
    assert FreedOkBody(Seal, s.freed, s.born, s.next, KeysOf(s));
    assert !Alive(KeysOf(s), o);
    match o
    case AThread(t) =>
      assert IndexOkBody(Seal, s.index, s.threads);
      OnNoList(s.dead, DeadPlaces(s.threads), t);
    case AMap(m) =>
      assert HomesOkBody(Seal, s.maps, s.spaces);
      OnNoList(s.lists, MapPlaces(s.maps), m);
    case ASpace(_) =>
      assert ThreadsOkBody(Seal, s.threads, s.held.threads, s.spaces.Keys);
  }

  lemma OnNoList(lists: Lists, places: map<Id, nat>, m: Id)
    requires Filed(lists, places) && m !in places
    ensures forall x :: m !in At(lists, x)
  {
    assert FiledBody(Seal, lists, places);
  }

  // ---------------------------------------------------------------- lists

  lemma FileAdd(lists: Lists, places: map<Id, nat>, m: Id, x: nat)
    requires Filed(lists, places) && m !in places
    ensures Filed(lists[x := At(lists, x) + [m]], places[m := x])
  {
    assert FiledBody(Seal, lists, places);
    var l := lists[x := At(lists, x) + [m]];
    forall y, n ensures n in At(l, y) <==> n in places[m := x] && places[m := x][n] == y {
      assert n in At(lists, y) <==> n in places && places[n] == y;
    }
    forall y ensures NoDup(At(l, y)) {
      assert NoDup(At(lists, y)) && m !in At(lists, x);
    }
    assert FiledBody(Seal, l, places[m := x]);
  }

  lemma FileDrop(lists: Lists, places: map<Id, nat>, m: Id, left: set<Id>)
    requires Filed(lists, places) && m in places && forall n :: n in places ==> (n in left <==> n != m)
    ensures var l := lists[places[m] := Drop(At(lists, places[m]), m)];
      Filed(l, places - {m}) && Shed(lists, l, left)
  {
    var l := lists[places[m] := Drop(At(lists, places[m]), m)];
    forall y ensures At(l, y) == Keep(At(lists, y), left) { DropAt(lists, places, m, left, y); }
    assert ShedBody(Seal, lists, l, left);
    FiledShed(lists, l, places, left, places - {m});
  }

  lemma DropAt(lists: Lists, places: map<Id, nat>, m: Id, left: set<Id>, y: nat)
    requires Filed(lists, places) && m in places && forall n :: n in places ==> (n in left <==> n != m)
    ensures At(lists[places[m] := Drop(At(lists, places[m]), m)], y) == Keep(At(lists, y), left)
  {
    assert FiledBody(Seal, lists, places);
    var s := At(lists, y);
    forall n | n in s ensures n in left <==> n != m { assert n in places; }
    if y == places[m] {
      DropKeeps(s, m, left);
    } else {
      assert m !in s;
      KeepAll(s, left);
    }
  }

  lemma FiledShed(a: Lists, b: Lists, places: map<Id, nat>, left: set<Id>, rest: map<Id, nat>)
    requires Filed(a, places) && Shed(a, b, left)
    requires forall n :: n in rest <==> n in places && n in left
    requires forall n :: n in rest ==> rest[n] == places[n]
    ensures Filed(b, rest)
  {
    assert FiledBody(Seal, a, places) && ShedBody(Seal, a, b, left);
    forall y ensures NoDup(At(b, y)) {
      assert NoDup(At(a, y));
      KeepNoDup(At(a, y), left);
    }
    forall y, n ensures n in At(b, y) <==> n in rest && rest[n] == y {
      KeepIn(At(a, y), left);
      assert n in At(a, y) <==> n in places && places[n] == y;
    }
    assert FiledBody(Seal, b, rest);
  }

  /** The lists of `b` are those of `a` but for what is not left. */
  ghost predicate Shed(a: Lists, b: Lists, left: set<Id>) {
    forall k: Seal :: ShedBody(k, a, b, left)
  }

  ghost predicate ShedBody(k: Seal, a: Lists, b: Lists, left: set<Id>) {
    forall x :: At(b, x) == Keep(At(a, x), left)
  }

  lemma ShedTrans(a: Lists, b: Lists, c: Lists, left: set<Id>, rest: set<Id>)
    requires Shed(a, b, left) && Shed(b, c, rest) && rest <= left
    ensures Shed(a, c, rest)
  {
    assert ShedBody(Seal, a, b, left) && ShedBody(Seal, b, c, rest);
    forall x ensures At(c, x) == Keep(At(a, x), rest) { KeepTwice(At(a, x), left, rest); }
    assert ShedBody(Seal, a, c, rest);
  }

  lemma ShedNone(a: Lists, places: map<Id, nat>, left: set<Id>)
    requires Filed(a, places) && places.Keys <= left
    ensures Shed(a, a, left)
  {
    assert FiledBody(Seal, a, places);
    forall x ensures At(a, x) == Keep(At(a, x), left) {
      assert forall m :: m in At(a, x) ==> m in places;
      KeepAll(At(a, x), left);
    }
    assert ShedBody(Seal, a, a, left);
  }

  // ---------------------------------------------------------------- threads

  function PutThreadRec(s: State, t: Id, r: Thread): State {
    s.(threads := s.threads[t := r])
  }

  function HoldThreads(s: State, m: multiset<Id>): State {
    s.(held := s.held.(threads := m))
  }

  function HoldSpaces(s: State, m: multiset<Id>): State {
    s.(held := s.held.(spaces := m))
  }

  /** The holders of `b` are those of `a` but for `t`. */
  ghost predicate HeldElsewhere(a: multiset<Id>, b: multiset<Id>, t: Id) {
    forall u :: u != t ==> a[u] == b[u]
  }

  lemma ThreadsPut(threads: map<Id, Thread>, held: multiset<Id>, spaces: set<Id>, t: Id, r: Thread, h: multiset<Id>)
    requires ThreadsOk(threads, held, spaces) && HeldElsewhere(held, h, t)
    requires r.refs == One(r.linked) + h[t] > 0 && (r.maps.Some? ==> r.maps.value in spaces)
    ensures ThreadsOk(threads[t := r], h, spaces)
  {
    assert ThreadsOkBody(Seal, threads, held, spaces);
    forall u | u in h ensures u in threads[t := r] { assert u != t ==> held[u] == h[u]; }
    forall u | u in threads[t := r] ensures var q := threads[t := r][u]; q.refs == One(q.linked) + h[u] > 0 {
      assert u != t ==> held[u] == h[u];
    }
    assert ThreadsOkBody(Seal, threads[t := r], h, spaces);
  }

  lemma Split1(a: set<Id>, t: Id)
    ensures |a| == |a - {t}| + One(t in a)
  {
    if t in a { assert a == (a - {t}) + {t}; } else { assert a == a - {t}; }
  }

  /** How the sharers of `x` change with one thread's record. */
  lemma SharersPut(threads: map<Id, Thread>, t: Id, r: Thread, x: Id)
    ensures |Sharers(threads[t := r], x)| + One(t in threads && threads[t].maps == Some(x))
      == |Sharers(threads, x)| + One(r.maps == Some(x))
  {
    var a, b := Sharers(threads, x), Sharers(threads[t := r], x);
    assert b - {t} == a - {t};
    Split1(a, t);
    Split1(b, t);
  }

  /** A thread's record changes; its reference, if it moves, moves between the thread and the holders. */
  lemma SpacesThread(spaces: map<Id, Space>, threads: map<Id, Thread>, held: multiset<Id>,
                     t: Id, r: Thread, h: multiset<Id>)
    requires SpacesOk(spaces, threads, held) && t in threads
    requires forall x :: One(r.maps == Some(x)) + h[x] == One(threads[t].maps == Some(x)) + held[x]
    requires r.maps.Some? ==> r.maps.value in spaces
    requires threads[t].maps.Some? ==> threads[t].maps.value in spaces
    ensures SpacesOk(spaces, threads[t := r], h)
  {
    assert SpacesOkBody(Seal, spaces, threads, held);
    forall x | x in spaces ensures spaces[x].refs == |Sharers(threads[t := r], x)| + h[x] > 0 {
      SharersPut(threads, t, r, x);
    }
    forall x | x in h ensures x in spaces { assert h[x] > 0; }
    assert SpacesOkBody(Seal, spaces, threads[t := r], h);
  }

  lemma IndexThread(index: map<Pid, Id>, threads: map<Id, Thread>, t: Id, r: Thread)
    requires IndexOk(index, threads) && t in threads && r.tid == threads[t].tid && r.linked == threads[t].linked
    ensures IndexOk(index, threads[t := r])
  {
    assert IndexOkBody(Seal, index, threads);
    assert IndexOkBody(Seal, index, threads[t := r]);
  }

  /** The general update of one thread: everything but `linked` and `tid` may change. */
  lemma ThreadInv(s: State, t: Id, r: Thread, h: Held)
    requires Inv(s) && t in s.threads && r.tid == s.threads[t].tid && r.linked == s.threads[t].linked
    requires h.maps == s.held.maps && h.dsos == s.held.dsos && HeldElsewhere(s.held.threads, h.threads, t)
    requires r.refs == One(r.linked) + h.threads[t] > 0
    requires forall x :: One(r.maps == Some(x)) + h.spaces[x] == One(s.threads[t].maps == Some(x)) + s.held.spaces[x]
    requires r.maps.Some? ==> r.maps.value in s.spaces
    ensures Inv(s.(threads := s.threads[t := r], held := h))
  {
    MapsInSpaces(s, t);
    ThreadsPut(s.threads, s.held.threads, s.spaces.Keys, t, r, h.threads);
    SpacesThread(s.spaces, s.threads, s.held.spaces, t, r, h.spaces);
    IndexThread(s.index, s.threads, t, r);
    assert DeadPlaces(s.threads[t := r]) == DeadPlaces(s.threads);
    assert s.threads[t := r].Keys == s.threads.Keys;
  }

  lemma MapsInSpaces(s: State, t: Id)
    requires Inv(s) && t in s.threads
    ensures s.threads[t].maps.Some? ==> s.threads[t].maps.value in s.spaces
    ensures s.threads[t].refs == One(s.threads[t].linked) + s.held.threads[t] > 0
  {
    assert ThreadsOkBody(Seal, s.threads, s.held.threads, s.spaces.Keys);
  }

  /** refcount_inc of a thread for somebody who holds on to it. */
  function GetThread(s: State, t: Id): State
    requires t in s.threads
  {
    HoldThreads(PutThreadRec(s, t, s.threads[t].(refs := s.threads[t].refs + 1)), s.held.threads + multiset{t})
  }

  lemma GetThreadInv(s: State, t: Id)
    requires Inv(s) && t in s.threads
    ensures Inv(GetThread(s, t))
  {
    MapsInSpaces(s, t);
    ThreadInv(s, t, GetThread(s, t).threads[t], GetThread(s, t).held);
  }

  /** A reference is given up that is not the last. */
  function DropThread(s: State, t: Id): State
    requires t in s.threads && s.threads[t].refs > 0
  {
    HoldThreads(PutThreadRec(s, t, s.threads[t].(refs := s.threads[t].refs - 1)), s.held.threads - multiset{t})
  }

  lemma DropThreadInv(s: State, t: Id)
    requires Inv(s) && t in s.held.threads && t in s.threads && s.threads[t].refs > 1
    ensures Inv(DropThread(s, t))
  {
    MapsInSpaces(s, t);
    ThreadInv(s, t, DropThread(s, t).threads[t], DropThread(s, t).held);
  }

  /** thread->tgid is assigned (src/machine.c:152). */
  function SetTgid(s: State, t: Id, tgid: Pid): State
    requires t in s.threads
  {
    PutThreadRec(s, t, s.threads[t].(tgid := tgid))
  }

  lemma SetTgidInv(s: State, t: Id, tgid: Pid)
    requires Inv(s) && t in s.threads
    ensures Inv(SetTgid(s, t, tgid))
  {
    MapsInSpaces(s, t);
    ThreadInv(s, t, SetTgid(s, t, tgid).threads[t], s.held);
    assert s.(threads := s.threads[t := SetTgid(s, t, tgid).threads[t]], held := s.held) == SetTgid(s, t, tgid);
  }

  /** A thread hands back its reference to the address space. */
  function DetachThread(s: State, t: Id): State
    requires t in s.threads && s.threads[t].maps.Some?
  {
    HoldSpaces(PutThreadRec(s, t, s.threads[t].(maps := None)), s.held.spaces + multiset{s.threads[t].maps.value})
  }

  lemma DetachThreadInv(s: State, t: Id)
    requires Inv(s) && t in s.threads && s.threads[t].maps.Some?
    ensures Inv(DetachThread(s, t))
  {
    MapsInSpaces(s, t);
    ThreadInv(s, t, DetachThread(s, t).threads[t], DetachThread(s, t).held);
  }

  /** The thread takes over a reference to an address space. */
  function AttachThread(s: State, t: Id, x: Id): State
    requires t in s.threads
  {
    HoldSpaces(PutThreadRec(s, t, s.threads[t].(maps := Some(x))), s.held.spaces - multiset{x})
  }

  lemma AttachThreadInv(s: State, t: Id, y: Id)
    requires Inv(s) && t in s.threads && s.threads[t].maps.None? && y in s.held.spaces
    ensures Inv(AttachThread(s, t, y))
  {
    MapsInSpaces(s, t);
    assert SpacesOkBody(Seal, s.spaces, s.threads, s.held.spaces);
    ThreadInv(s, t, AttachThread(s, t, y).threads[t], AttachThread(s, t, y).held);
  }

  /** The last reference is given up: the thread leaves its dead list and is freed. */
  function FreeThread(s: State, t: Id): State
    requires t in s.threads
  {
    var b := Registry.Hash(s.threads[t].tid);
    HoldThreads(s.(threads := s.threads - {t}, dead := s.dead[b := Drop(At(s.dead, b), t)],
                   freed := s.freed + [AThread(t)]),
                s.held.threads - multiset{t})
  }

  lemma ThreadsLess(threads: map<Id, Thread>, held: multiset<Id>, spaces: set<Id>, t: Id)
    requires ThreadsOk(threads, held, spaces) && held[t] == 1
    ensures ThreadsOk(threads - {t}, held - multiset{t}, spaces)
  {
    assert ThreadsOkBody(Seal, threads, held, spaces);
    assert ThreadsOkBody(Seal, threads - {t}, held - multiset{t}, spaces);
  }

  lemma SpacesLess(spaces: map<Id, Space>, threads: map<Id, Thread>, held: multiset<Id>, t: Id)
    requires SpacesOk(spaces, threads, held) && t in threads && threads[t].maps.None?
    ensures SpacesOk(spaces, threads - {t}, held)
  {
    assert SpacesOkBody(Seal, spaces, threads, held);
    forall x ensures Sharers(threads - {t}, x) == Sharers(threads, x) {}
    assert SpacesOkBody(Seal, spaces, threads - {t}, held);
  }

  lemma IndexLess(index: map<Pid, Id>, threads: map<Id, Thread>, t: Id)
    requires IndexOk(index, threads) && t in threads && !threads[t].linked
    ensures IndexOk(index, threads - {t})
  {
    assert IndexOkBody(Seal, index, threads);
    assert IndexOkBody(Seal, index, threads - {t});
  }

  lemma FreedMore(freed: seq<Object>, born: set<Object>, next: Id, keys: Keys, less: Keys, o: Object)
    requires FreedOk(freed, born, next, keys) && Alive(keys, o) && less.dsos == keys.dsos
    requires forall q :: Alive(less, q) <==> Alive(keys, q) && q != o
    ensures FreedOk(freed + [o], born, next, less)
  {
    assert FreedOkBody(Seal, freed, born, next, keys);
    assert FreedOkBody(Seal, freed + [o], born, next, less);
  }

  lemma FreeThreadInv(s: State, t: Id)
    requires Inv(s) && t in s.held.threads && t in s.threads && s.threads[t].refs == 1 && s.threads[t].maps.None?
    ensures !s.threads[t].linked && Inv(FreeThread(s, t))
    ensures t in At(s.dead, Registry.Hash(s.threads[t].tid))
    ensures Shed(s.dead, FreeThread(s, t).dead, FreeThread(s, t).threads.Keys)
  {
    MapsInSpaces(s, t);
    ThreadsLess(s.threads, s.held.threads, s.spaces.Keys, t);
    SpacesLess(s.spaces, s.threads, s.held.spaces, t);
    IndexLess(s.index, s.threads, t);
    assert (s.threads - {t}).Keys == s.threads.Keys - {t};
    assert FiledBody(Seal, s.dead, DeadPlaces(s.threads));
    FileDrop(s.dead, DeadPlaces(s.threads), t, (s.threads - {t}).Keys);
    assert DeadPlaces(s.threads - {t}) == DeadPlaces(s.threads) - {t};
    FreedMore(s.freed, s.born, s.next, KeysOf(s), KeysOf(FreeThread(s, t)), AThread(t));
  }

  lemma Unborn(s: State)
    requires Inv(s)
    ensures s.next !in s.threads && s.next !in s.spaces && s.next !in s.maps && s.next !in s.dsos
    ensures s.held.threads[s.next] == 0 && s.held.spaces[s.next] == 0
    ensures s.held.maps[s.next] == 0 && s.held.dsos[s.next] == 0
  {
    assert FreedOkBody(Seal, s.freed, s.born, s.next, KeysOf(s));
    assert !Alive(KeysOf(s), AThread(s.next)) && !Alive(KeysOf(s), ASpace(s.next)) && !Alive(KeysOf(s), AMap(s.next));
    assert ThreadsOkBody(Seal, s.threads, s.held.threads, s.spaces.Keys);
    assert SpacesOkBody(Seal, s.spaces, s.threads, s.held.spaces);
    assert MapsOkBody(Seal, s.maps, s.held.maps, s.dsos.Keys) && DsosOkBody(Seal, s.dsos, s.maps, s.held.dsos);
  }

  lemma Born(freed: seq<Object>, born: set<Object>, next: Id, keys: Keys, more: Keys, o: Object)
    requires FreedOk(freed, born, next, keys) && o.id == next
    requires forall q :: Alive(more, q) <==> Alive(keys, q) || q == o
    requires more.dsos == keys.dsos
    ensures FreedOk(freed, born + {o}, next + 1, more)
  {
    assert FreedOkBody(Seal, freed, born, next, keys);
    assert FreedOkBody(Seal, freed, born + {o}, next + 1, more);
  }

  /** thread__new and rb_link_node: the one reference is the tree's. */
  function NewThread(s: State, tgid: Pid, tid: Pid): State {
    s.(threads := s.threads[s.next := Thread(tgid, tid, None, 1, true)], index := s.index[tid := s.next],
       next := s.next + 1, born := s.born + {AThread(s.next)})
  }

  lemma IndexMore(index: map<Pid, Id>, threads: map<Id, Thread>, t: Id, r: Thread)
    requires IndexOk(index, threads) && t !in threads && r.linked && r.tid !in index
    ensures IndexOk(index[r.tid := t], threads[t := r])
  {
    assert IndexOkBody(Seal, index, threads);
    assert IndexOkBody(Seal, index[r.tid := t], threads[t := r]);
  }

  lemma SpacesMore(spaces: map<Id, Space>, threads: map<Id, Thread>, held: multiset<Id>, t: Id, r: Thread)
    requires SpacesOk(spaces, threads, held) && t !in threads && r.maps.None?
    ensures SpacesOk(spaces, threads[t := r], held)
  {
    assert SpacesOkBody(Seal, spaces, threads, held);
    forall x ensures Sharers(threads[t := r], x) == Sharers(threads, x) {}
    assert SpacesOkBody(Seal, spaces, threads[t := r], held);
  }

  lemma NewThreadInv(s: State, tgid: Pid, tid: Pid)
    requires Inv(s) && tid !in s.index
    ensures Inv(NewThread(s, tgid, tid)) && s.next !in s.threads
  {
    Unborn(s);
    var r := Thread(tgid, tid, None, 1, true);
    ThreadsPut(s.threads, s.held.threads, s.spaces.Keys, s.next, r, s.held.threads);
    SpacesMore(s.spaces, s.threads, s.held.spaces, s.next, r);
    IndexMore(s.index, s.threads, s.next, r);
    assert DeadPlaces(s.threads[s.next := r]) == DeadPlaces(s.threads);
    Born(s.freed, s.born, s.next, KeysOf(s), KeysOf(NewThread(s, tgid, tid)), AThread(s.next));
  }

  /** rb_erase_init and list_add_tail: the tree's reference is now held by the code that removes the thread. */
  function UnlinkThread(s: State, t: Id): State
    requires t in s.threads
  {
    var r := s.threads[t].(linked := false);
    var b := Registry.Hash(r.tid);
    HoldThreads(PutThreadRec(s, t, r).(index := s.index - {r.tid}, dead := s.dead[b := At(s.dead, b) + [t]]),
                s.held.threads + multiset{t})
  }

  lemma IndexUnlink(index: map<Pid, Id>, threads: map<Id, Thread>, t: Id, r: Thread)
    requires IndexOk(index, threads) && t in threads && threads[t].linked && r.tid == threads[t].tid && !r.linked
    ensures IndexOk(index - {r.tid}, threads[t := r])
  {
    assert IndexOkBody(Seal, index, threads);
    assert IndexOkBody(Seal, index - {r.tid}, threads[t := r]);
  }

  lemma UnlinkThreadInv(s: State, t: Id)
    requires Inv(s) && t in s.threads && s.threads[t].linked
    ensures Inv(UnlinkThread(s, t))
  {
    MapsInSpaces(s, t);
    var r := UnlinkThread(s, t).threads[t];
    ThreadsPut(s.threads, s.held.threads, s.spaces.Keys, t, r, s.held.threads + multiset{t});
    SpacesThread(s.spaces, s.threads, s.held.spaces, t, r, s.held.spaces);
    IndexUnlink(s.index, s.threads, t, r);
    FileAdd(s.dead, DeadPlaces(s.threads), t, Registry.Hash(r.tid));
    assert DeadPlaces(s.threads[t := r]) == DeadPlaces(s.threads)[t := Registry.Hash(r.tid)];
    assert s.threads[t := r].Keys == s.threads.Keys;
  }

  // ---------------------------------------------------------------- address spaces

  /** A change of the count that the holders account for. */
  lemma SpacesPut(spaces: map<Id, Space>, threads: map<Id, Thread>, held: multiset<Id>,
                  x: Id, r: Space, h: multiset<Id>)
    requires SpacesOk(spaces, threads, held) && x in spaces && HeldElsewhere(held, h, x)
    requires r.refs + held[x] == spaces[x].refs + h[x] && r.refs > 0
    ensures SpacesOk(spaces[x := r], threads, h)
  {
    assert SpacesOkBody(Seal, spaces, threads, held);
    forall y | y in spaces[x := r] ensures var q := spaces[x := r][y]; q.refs == |Sharers(threads, y)| + h[y] > 0 {
      assert y != x ==> held[y] == h[y];
    }
    forall y | y in h ensures y in spaces[x := r] { assert y != x ==> held[y] == h[y]; }
    assert SpacesOkBody(Seal, spaces[x := r], threads, h);
  }

  lemma HomesSpace(maps: map<Id, Map>, spaces: map<Id, Space>, x: Id, r: Space)
    requires HomesOk(maps, spaces) && x in spaces && r.entries == spaces[x].entries
    ensures HomesOk(maps, spaces[x := r])
  {
    assert HomesOkBody(Seal, maps, spaces);
    assert HomesOkBody(Seal, maps, spaces[x := r]);
  }

  lemma SpaceInv(s: State, x: Id, r: Space, h: multiset<Id>)
    requires Inv(s) && x in s.spaces && HeldElsewhere(s.held.spaces, h, x) && r.entries == s.spaces[x].entries
    requires r.refs + s.held.spaces[x] == s.spaces[x].refs + h[x] && r.refs > 0
    ensures Inv(HoldSpaces(s.(spaces := s.spaces[x := r]), h))
  {
    SpacesPut(s.spaces, s.threads, s.held.spaces, x, r, h);
    HomesSpace(s.maps, s.spaces, x, r);
    assert s.spaces[x := r].Keys == s.spaces.Keys;
  }

  /** maps__get (src/map.h:78-83). */
  function GetSpace(s: State, x: Id): State
    requires x in s.spaces
  {
    HoldSpaces(s.(spaces := s.spaces[x := s.spaces[x].(refs := s.spaces[x].refs + 1)]), s.held.spaces + multiset{x})
  }

  lemma GetSpaceInv(s: State, x: Id)
    requires Inv(s) && x in s.spaces
    ensures Inv(GetSpace(s, x))
  {
    SpaceInv(s, x, GetSpace(s, x).spaces[x], s.held.spaces + multiset{x});
  }

  function DropSpace(s: State, x: Id): State
    requires x in s.spaces && s.spaces[x].refs > 0
  {
    HoldSpaces(s.(spaces := s.spaces[x := s.spaces[x].(refs := s.spaces[x].refs - 1)]), s.held.spaces - multiset{x})
  }

  lemma DropSpaceInv(s: State, x: Id)
    requires Inv(s) && x in s.spaces && x in s.held.spaces && s.spaces[x].refs > 1
    ensures Inv(DropSpace(s, x))
  {
    SpaceInv(s, x, DropSpace(s, x).spaces[x], s.held.spaces - multiset{x});
  }

  /** maps__new (src/map.c:104-112). */
  function NewSpace(s: State): State {
    HoldSpaces(s.(spaces := s.spaces[s.next := Space(1, [])], next := s.next + 1, born := s.born + {ASpace(s.next)}),
               s.held.spaces + multiset{s.next})
  }

  lemma NewSpaceInv(s: State)
    requires Inv(s)
    ensures Inv(NewSpace(s)) && s.next !in s.spaces && Sharers(s.threads, s.next) == {}
  {
    Unborn(s);
    var u := NewSpace(s);
    ThreadsGain(s.threads, s.held.threads, s.spaces.Keys, s.next);
    SpacesGain(s.spaces, s.threads, s.held.spaces, s.held.threads, s.next);
    HomesGain(s.maps, s.spaces, s.next);
    assert u.spaces.Keys == s.spaces.Keys + {s.next};
    Born(s.freed, s.born, s.next, KeysOf(s), KeysOf(u), ASpace(s.next));
  }

  lemma ThreadsGain(threads: map<Id, Thread>, held: multiset<Id>, spaces: set<Id>, x: Id)
    requires ThreadsOk(threads, held, spaces)
    ensures ThreadsOk(threads, held, spaces + {x})
  {
    assert ThreadsOkBody(Seal, threads, held, spaces);
    assert ThreadsOkBody(Seal, threads, held, spaces + {x});
  }

  lemma SpacesGain(spaces: map<Id, Space>, threads: map<Id, Thread>, held: multiset<Id>, users: multiset<Id>, x: Id)
    requires SpacesOk(spaces, threads, held) && ThreadsOk(threads, users, spaces.Keys) && x !in spaces && held[x] == 0
    ensures Sharers(threads, x) == {} && SpacesOk(spaces[x := Space(1, [])], threads, held + multiset{x})
  {
    assert SpacesOkBody(Seal, spaces, threads, held) && ThreadsOkBody(Seal, threads, users, spaces.Keys);
    assert Sharers(threads, x) == {};
    assert SpacesOkBody(Seal, spaces[x := Space(1, [])], threads, held + multiset{x});
  }

  lemma HomesGain(maps: map<Id, Map>, spaces: map<Id, Space>, x: Id)
    requires HomesOk(maps, spaces) && x !in spaces
    ensures HomesOk(maps, spaces[x := Space(1, [])])
  {
    assert HomesOkBody(Seal, maps, spaces);
    assert HomesOkBody(Seal, maps, spaces[x := Space(1, [])]);
  }

  /** The last reference is given up: the address space, whose tree has been emptied, is freed. */
  function FreeSpace(s: State, x: Id): State {
    HoldSpaces(s.(spaces := s.spaces - {x}, freed := s.freed + [ASpace(x)]), s.held.spaces - multiset{x})
  }

  lemma FreeSpaceInv(s: State, x: Id)
    requires Inv(s) && x in s.spaces && x in s.held.spaces && s.spaces[x].refs == 1 && s.spaces[x].entries == []
    ensures Inv(FreeSpace(s, x))
  {
    var u := FreeSpace(s, x);
    SpacesLose(s.spaces, s.threads, s.held.spaces, x);
    ThreadsLose(s.threads, s.held.threads, s.spaces.Keys, x);
    HomesLose(s.maps, s.spaces, x);
    assert (s.spaces - {x}).Keys == s.spaces.Keys - {x};
    FreedMore(s.freed, s.born, s.next, KeysOf(s), KeysOf(u), ASpace(x));
  }

  lemma SpacesLose(spaces: map<Id, Space>, threads: map<Id, Thread>, held: multiset<Id>, x: Id)
    requires SpacesOk(spaces, threads, held) && x in spaces && x in held && spaces[x].refs == 1
    ensures Sharers(threads, x) == {} && SpacesOk(spaces - {x}, threads, held - multiset{x})
  {
    assert SpacesOkBody(Seal, spaces, threads, held);
    assert |Sharers(threads, x)| == 0;
    assert SpacesOkBody(Seal, spaces - {x}, threads, held - multiset{x});
  }

  lemma ThreadsLose(threads: map<Id, Thread>, held: multiset<Id>, spaces: set<Id>, x: Id)
    requires ThreadsOk(threads, held, spaces) && Sharers(threads, x) == {}
    ensures ThreadsOk(threads, held, spaces - {x})
  {
    assert ThreadsOkBody(Seal, threads, held, spaces);
    forall t | t in threads && threads[t].maps.Some? ensures threads[t].maps.value in spaces - {x} {
      assert t !in Sharers(threads, x);
    }
    assert ThreadsOkBody(Seal, threads, held, spaces - {x});
  }

  lemma HomesLose(maps: map<Id, Map>, spaces: map<Id, Space>, x: Id)
    requires HomesOk(maps, spaces) && x in spaces && spaces[x].entries == []
    ensures HomesOk(maps, spaces - {x})
  {
    assert HomesOkBody(Seal, maps, spaces);
    assert HomesOkBody(Seal, maps, spaces - {x});
  }

  // ---------------------------------------------------------------- maps

  lemma MapsPut(maps: map<Id, Map>, held: multiset<Id>, dsos: set<Id>, m: Id, r: Map, h: multiset<Id>)
    requires MapsOk(maps, held, dsos) && HeldElsewhere(held, h, m)
    requires r.refs == One(r.home.Some?) + h[m] > 0 && r.dso in dsos
    ensures MapsOk(maps[m := r], h, dsos)
  {
    assert MapsOkBody(Seal, maps, held, dsos);
    forall n | n in maps[m := r] ensures var q := maps[m := r][n]; q.refs == One(q.home.Some?) + h[n] > 0 {
      assert n != m ==> held[n] == h[n];
    }
    forall n | n in h ensures n in maps[m := r] { assert n != m ==> held[n] == h[n]; }
    assert MapsOkBody(Seal, maps[m := r], h, dsos);
  }

  lemma UsersPut(maps: map<Id, Map>, m: Id, r: Map, d: Id)
    ensures |Users(maps[m := r], d)| + One(m in maps && maps[m].dso == d) == |Users(maps, d)| + One(r.dso == d)
  {
    var a, b := Users(maps, d), Users(maps[m := r], d);
    assert b - {m} == a - {m};
    Split1(a, m);
    Split1(b, m);
  }

  /** A map's record changes or is new; the references to its DSO move between it and the holders. */
  lemma DsosMap(dsos: map<Id, Dso>, maps: map<Id, Map>, held: multiset<Id>, m: Id, r: Map, h: multiset<Id>)
    requires DsosOk(dsos, maps, held)
    requires forall d :: One(r.dso == d) + h[d] == One(m in maps && maps[m].dso == d) + held[d]
    requires m in maps ==> maps[m].dso in dsos
    ensures DsosOk(dsos, maps[m := r], h)
  {
    assert DsosOkBody(Seal, dsos, maps, held);
    forall d | d in dsos ensures dsos[d].refs == One(dsos[d].listed) + |Users(maps[m := r], d)| + h[d] {
      UsersPut(maps, m, r, d);
    }
    forall d | d in h ensures d in dsos { assert h[d] > 0; }
    assert DsosOkBody(Seal, dsos, maps[m := r], h);
  }

  lemma HomesMap(maps: map<Id, Map>, spaces: map<Id, Space>, m: Id, r: Map)
    requires HomesOk(maps, spaces)
    requires if m in maps then r.home == maps[m].home && r.on == maps[m].on else r.home.None?
    ensures HomesOk(maps[m := r], spaces)
  {
    assert HomesOkBody(Seal, maps, spaces);
    assert HomesOkBody(Seal, maps[m := r], spaces);
  }

  lemma MapFacts(s: State, m: Id)
    requires Inv(s) && m in s.maps
    ensures s.maps[m].refs == One(s.maps[m].home.Some?) + s.held.maps[m] > 0 && s.maps[m].dso in s.dsos
    ensures s.maps[m].home.Some? ==> s.maps[m].on == s.maps[m].home
    ensures s.maps[m].home.Some? ==> s.maps[m].home.value in s.spaces
    ensures s.maps[m].home.Some? ==> m in s.spaces[s.maps[m].home.value].entries
  {
    assert MapsOkBody(Seal, s.maps, s.held.maps, s.dsos.Keys) && HomesOkBody(Seal, s.maps, s.spaces);
  }

  lemma MapInv(s: State, m: Id, r: Map, h: multiset<Id>)
    requires Inv(s) && m in s.maps && r.home == s.maps[m].home && r.on == s.maps[m].on && r.dso == s.maps[m].dso
    requires HeldElsewhere(s.held.maps, h, m) && r.refs == One(r.home.Some?) + h[m] > 0
    ensures Inv(HoldMaps(s.(maps := s.maps[m := r]), h))
  {
    MapFacts(s, m);
    MapsPut(s.maps, s.held.maps, s.dsos.Keys, m, r, h);
    DsosMap(s.dsos, s.maps, s.held.dsos, m, r, s.held.dsos);
    HomesMap(s.maps, s.spaces, m, r);
    assert MapPlaces(s.maps[m := r]) == MapPlaces(s.maps);
    assert s.maps[m := r].Keys == s.maps.Keys;
  }

  function HoldMaps(s: State, h: multiset<Id>): State {
    s.(held := s.held.(maps := h))
  }

  function HoldDsos(s: State, h: multiset<Id>): State {
    s.(held := s.held.(dsos := h))
  }

  /** A reference to a map is given up that is not the last. */
  function DropMap(s: State, m: Id): State
    requires m in s.maps && s.maps[m].refs > 0
  {
    HoldMaps(s.(maps := s.maps[m := s.maps[m].(refs := s.maps[m].refs - 1)]), s.held.maps - multiset{m})
  }

  lemma DropMapInv(s: State, m: Id)
    requires Inv(s) && m in s.maps && m in s.held.maps && s.maps[m].refs > 1
    ensures Inv(DropMap(s, m))
  {
    MapFacts(s, m);
    MapInv(s, m, DropMap(s, m).maps[m], s.held.maps - multiset{m});
  }

  /** map__new and map__init: the map takes over a reference to its DSO; the creator holds the map. */
  function NewMap(s: State, d: Id): State {
    s.(maps := s.maps[s.next := Map(d, 1, None, None)], next := s.next + 1, born := s.born + {AMap(s.next)},
       held := s.held.(maps := s.held.maps + multiset{s.next}, dsos := s.held.dsos - multiset{d}))
  }

  lemma NewMapInv(s: State, d: Id)
    requires Inv(s) && d in s.held.dsos
    ensures Inv(NewMap(s, d)) && s.next !in s.maps
  {
    Unborn(s);
    var r := Map(d, 1, None, None);
    MapGain(s.maps, s.held.maps, s.dsos, s.held.dsos, s.next, d);
    HomesMap(s.maps, s.spaces, s.next, r);
    PlacesGain(s.maps, s.next, r);
    assert s.maps[s.next := r].Keys == s.maps.Keys + {s.next};
    Born(s.freed, s.born, s.next, KeysOf(s), KeysOf(NewMap(s, d)), AMap(s.next));
  }

  lemma MapGain(maps: map<Id, Map>, held: multiset<Id>, dsos: map<Id, Dso>, users: multiset<Id>, m: Id, d: Id)
    requires MapsOk(maps, held, dsos.Keys) && DsosOk(dsos, maps, users) && d in users && m !in maps && held[m] == 0
    ensures var more := maps[m := Map(d, 1, None, None)];
      MapsOk(more, held + multiset{m}, dsos.Keys) && DsosOk(dsos, more, users - multiset{d})
  {
    var r := Map(d, 1, None, None);
    assert DsosOkBody(Seal, dsos, maps, users);
    MapsPut(maps, held, dsos.Keys, m, r, held + multiset{m});
    DsosMap(dsos, maps, users, m, r, users - multiset{d});
  }

  lemma PlacesGain(maps: map<Id, Map>, m: Id, r: Map)
    requires m !in maps && r.on.None?
    ensures MapPlaces(maps[m := r]) == MapPlaces(maps)
  {
  }

  function Unlisted(lists: Lists, m: Id, on: Option<Id>): Lists {
    if on.None? then lists else lists[on.value := Drop(At(lists, on.value), m)]
  }

  /** The last reference is given up: the map leaves its list, is freed and hands back its reference to the DSO. */
  function FreeMap(s: State, m: Id): State
    requires m in s.maps
  {
    s.(maps := s.maps - {m}, lists := Unlisted(s.lists, m, s.maps[m].on), freed := s.freed + [AMap(m)],
       held := s.held.(maps := s.held.maps - multiset{m}, dsos := s.held.dsos + multiset{s.maps[m].dso}))
  }

  lemma MapsLess(maps: map<Id, Map>, held: multiset<Id>, dsos: set<Id>, m: Id)
    requires MapsOk(maps, held, dsos) && held[m] == 1
    ensures MapsOk(maps - {m}, held - multiset{m}, dsos)
  {
    assert MapsOkBody(Seal, maps, held, dsos);
    assert MapsOkBody(Seal, maps - {m}, held - multiset{m}, dsos);
  }

  lemma DsosLess(dsos: map<Id, Dso>, maps: map<Id, Map>, held: multiset<Id>, m: Id)
    requires DsosOk(dsos, maps, held) && m in maps && maps[m].dso in dsos
    ensures DsosOk(dsos, maps - {m}, held + multiset{maps[m].dso})
  {
    assert DsosOkBody(Seal, dsos, maps, held);
    forall d ensures |Users(maps, d)| == |Users(maps - {m}, d)| + One(maps[m].dso == d) {
      assert Users(maps - {m}, d) == Users(maps, d) - {m};
      Split1(Users(maps, d), m);
    }
    assert DsosOkBody(Seal, dsos, maps - {m}, held + multiset{maps[m].dso});
  }

  lemma HomesLess(maps: map<Id, Map>, spaces: map<Id, Space>, m: Id)
    requires HomesOk(maps, spaces) && m in maps && maps[m].home.None?
    ensures HomesOk(maps - {m}, spaces)
  {
    assert HomesOkBody(Seal, maps, spaces);
    assert HomesOkBody(Seal, maps - {m}, spaces);
  }

  lemma ListsLess(lists: Lists, maps: map<Id, Map>, m: Id)
    requires Filed(lists, MapPlaces(maps)) && m in maps
    ensures var l := Unlisted(lists, m, maps[m].on);
      Filed(l, MapPlaces(maps - {m})) && Shed(lists, l, (maps - {m}).Keys)
  {
    var p := MapPlaces(maps);
    assert MapPlaces(maps - {m}) == p - {m};
    if maps[m].on.Some? {
      FileDrop(lists, p, m, (maps - {m}).Keys);
    } else {
      assert p - {m} == p;
      ShedNone(lists, p, (maps - {m}).Keys);
    }
  }

  lemma FreeMapInv(s: State, m: Id)
    requires Inv(s) && m in s.maps && m in s.held.maps && s.maps[m].refs == 1
    ensures s.maps[m].home.None? && Inv(FreeMap(s, m))
    ensures Shed(s.lists, FreeMap(s, m).lists, FreeMap(s, m).maps.Keys)
  {
    MapFacts(s, m);
    MapsLess(s.maps, s.held.maps, s.dsos.Keys, m);
    DsosLess(s.dsos, s.maps, s.held.dsos, m);
    HomesLess(s.maps, s.spaces, m);
    ListsLess(s.lists, s.maps, m);
    assert (s.maps - {m}).Keys == s.maps.Keys - {m};
    FreedMore(s.freed, s.born, s.next, KeysOf(s), KeysOf(FreeMap(s, m)), AMap(m));
  }

  /** __maps__insert: the tree of `x` takes a reference of its own, and the map goes to the end of the list. */
  function LinkMap(s: State, x: Id, m: Id, at: nat): State
    requires x in s.spaces && m in s.maps && at <= |s.spaces[x].entries|
  {
    var e := s.spaces[x].entries;
    s.(maps := s.maps[m := s.maps[m].(refs := s.maps[m].refs + 1, home := Some(x), on := Some(x))],
       spaces := s.spaces[x := s.spaces[x].(entries := e[..at] + [m] + e[at..])],
       lists := s.lists[x := At(s.lists, x) + [m]])
  }

  lemma SpacesEntries(spaces: map<Id, Space>, threads: map<Id, Thread>, held: multiset<Id>, x: Id, e: seq<Id>)
    requires SpacesOk(spaces, threads, held) && x in spaces
    ensures SpacesOk(spaces[x := spaces[x].(entries := e)], threads, held)
  {
    assert SpacesOkBody(Seal, spaces, threads, held);
    SpacesPut(spaces, threads, held, x, spaces[x].(entries := e), held);
  }

  lemma HomesLink(maps: map<Id, Map>, spaces: map<Id, Space>, m: Id, x: Id, at: nat, r: Map)
    requires HomesOk(maps, spaces) && x in spaces && m in maps && maps[m].home.None?
    requires at <= |spaces[x].entries| && r.home == Some(x) && r.on == Some(x)
    ensures var e := spaces[x].entries;
      HomesOk(maps[m := r], spaces[x := spaces[x].(entries := e[..at] + [m] + e[at..])])
  {
    assert HomesOkBody(Seal, maps, spaces);
    var e := spaces[x].entries;
    var f := e[..at] + [m] + e[at..];
    assert m !in e;
    assert forall n :: n in f <==> n == m || n in e by {
      assert e == e[..at] + e[at..];
    }
    forall i, j | 0 <= i < j < |f| ensures f[i] != f[j] {
      assert i != at ==> f[i] == e[if i < at then i else i - 1];
      assert j != at ==> f[j] == e[if j < at then j else j - 1];
    }
    assert HomesOkBody(Seal, maps[m := r], spaces[x := spaces[x].(entries := f)]);
  }

  lemma LinkMapInv(s: State, x: Id, m: Id, at: nat)
    requires Inv(s) && x in s.spaces && m in s.maps && s.maps[m].home.None? && s.maps[m].on.None?
    requires at <= |s.spaces[x].entries|
    ensures Inv(LinkMap(s, x, m, at))
  {
    MapFacts(s, m);
    var u := LinkMap(s, x, m, at);
    var r := u.maps[m];
    MapsPut(s.maps, s.held.maps, s.dsos.Keys, m, r, s.held.maps);
    DsosMap(s.dsos, s.maps, s.held.dsos, m, r, s.held.dsos);
    HomesLink(s.maps, s.spaces, m, x, at, r);
    SpacesEntries(s.spaces, s.threads, s.held.spaces, x, u.spaces[x].entries);
    FileAdd(s.lists, MapPlaces(s.maps), m, x);
    assert MapPlaces(u.maps) == MapPlaces(s.maps)[m := x];
    assert u.maps.Keys == s.maps.Keys && u.spaces.Keys == s.spaces.Keys;
  }

  /** rb_erase_init of the first map of `x`, which stays on the list: the purge holds the tree's reference now. */
  function UnlinkFirst(s: State, x: Id): State
    requires x in s.spaces && s.spaces[x].entries != [] && s.spaces[x].entries[0] in s.maps
  {
    var m := s.spaces[x].entries[0];
    HoldMaps(s.(maps := s.maps[m := s.maps[m].(home := None)],
                spaces := s.spaces[x := s.spaces[x].(entries := s.spaces[x].entries[1..])]),
             s.held.maps + multiset{m})
  }

  lemma HomesUnlink(maps: map<Id, Map>, spaces: map<Id, Space>, x: Id, r: Map)
    requires HomesOk(maps, spaces) && x in spaces && spaces[x].entries != [] && r.home.None?
    ensures var e := spaces[x].entries;
      && e[0] in maps && maps[e[0]].home == Some(x)
      && HomesOk(maps[e[0] := r], spaces[x := spaces[x].(entries := e[1..])])
  {
    assert HomesOkBody(Seal, maps, spaces);
    var e := spaces[x].entries;
    assert e[0] in e && e == [e[0]] + e[1..];
    forall y, n | y in spaces && y != x && n in spaces[y].entries ensures n != e[0] { assert maps[n].home == Some(y); }
    assert HomesOkBody(Seal, maps[e[0] := r], spaces[x := spaces[x].(entries := e[1..])]);
  }

  lemma UnlinkFirstInv(s: State, x: Id)
    requires Inv(s) && x in s.spaces && s.spaces[x].entries != []
    ensures var m := s.spaces[x].entries[0]; m in s.maps && s.maps[m].home == Some(x) && Inv(UnlinkFirst(s, x))
  {
    var m := s.spaces[x].entries[0];
    assert HomesOkBody(Seal, s.maps, s.spaces);
    MapFacts(s, m);
    var u := UnlinkFirst(s, x);
    var r := u.maps[m];
    MapsPut(s.maps, s.held.maps, s.dsos.Keys, m, r, u.held.maps);
    DsosMap(s.dsos, s.maps, s.held.dsos, m, r, s.held.dsos);
    HomesUnlink(s.maps, s.spaces, x, r);
    SpacesEntries(s.spaces, s.threads, s.held.spaces, x, u.spaces[x].entries);
    assert MapPlaces(u.maps) == MapPlaces(s.maps);
    assert u.maps.Keys == s.maps.Keys && u.spaces.Keys == s.spaces.Keys;
  }

  // ---------------------------------------------------------------- DSOs

  lemma DsosPut(dsos: map<Id, Dso>, maps: map<Id, Map>, held: multiset<Id>, d: Id, r: Dso, h: multiset<Id>)
    requires DsosOk(dsos, maps, held) && HeldElsewhere(held, h, d)
    requires if d in dsos then r.refs + held[d] + One(dsos[d].listed) == dsos[d].refs + h[d] + One(r.listed)
             else Users(maps, d) == {} && r.refs == One(r.listed) + h[d]
    ensures DsosOk(dsos[d := r], maps, h)
  {
    assert DsosOkBody(Seal, dsos, maps, held);
    forall e | e in dsos[d := r]
      ensures var q := dsos[d := r][e]; q.refs == One(q.listed) + |Users(maps, e)| + h[e]
    {
      assert e != d ==> held[e] == h[e];
    }
    forall e | e in h ensures e in dsos[d := r] { assert e != d ==> held[e] == h[e]; }
    assert DsosOkBody(Seal, dsos[d := r], maps, h);
  }

  lemma ListDso(list: seq<Id>, dsos: map<Id, Dso>, d: Id, r: Dso)
    requires ListOk(list, dsos)
    requires if d in dsos then r.listed == dsos[d].listed && r.name == dsos[d].name else !r.listed
    ensures ListOk(list, dsos[d := r])
  {
    assert ListOkBody(Seal, list, dsos);
    assert ListOkBody(Seal, list, dsos[d := r]);
  }

  lemma DsoInv(s: State, d: Id, r: Dso, h: multiset<Id>)
    requires Inv(s) && d in s.dsos && HeldElsewhere(s.held.dsos, h, d)
    requires r.listed == s.dsos[d].listed && r.name == s.dsos[d].name
    requires r.refs + s.held.dsos[d] == s.dsos[d].refs + h[d]
    ensures Inv(HoldDsos(s.(dsos := s.dsos[d := r]), h))
  {
    DsosPut(s.dsos, s.maps, s.held.dsos, d, r, h);
    ListDso(s.list, s.dsos, d, r);
    assert s.dsos[d := r].Keys == s.dsos.Keys;
  }

  /** dso__get (src/dso.c:169-174). */
  function GetDso(s: State, d: Id): State
    requires d in s.dsos
  {
    HoldDsos(s.(dsos := s.dsos[d := s.dsos[d].(refs := s.dsos[d].refs + 1)]), s.held.dsos + multiset{d})
  }

  lemma GetDsoInv(s: State, d: Id)
    requires Inv(s) && d in s.dsos
    ensures Inv(GetDso(s, d))
  {
    DsoInv(s, d, GetDso(s, d).dsos[d], s.held.dsos + multiset{d});
  }

  /** dso__put (src/dso.c:176-180): also the last one keeps the object, since dso__delete does nothing. */
  function DropDso(s: State, d: Id): State
    requires d in s.dsos && s.dsos[d].refs > 0
  {
    HoldDsos(s.(dsos := s.dsos[d := s.dsos[d].(refs := s.dsos[d].refs - 1)]), s.held.dsos - multiset{d})
  }

  lemma DropDsoInv(s: State, d: Id)
    requires Inv(s) && d in s.held.dsos
    ensures d in s.dsos && s.dsos[d].refs > 0 && Inv(DropDso(s, d))
  {
    assert DsosOkBody(Seal, s.dsos, s.maps, s.held.dsos);
    DsoInv(s, d, DropDso(s, d).dsos[d], s.held.dsos - multiset{d});
  }

  /** dso__new (src/dso.c:145-162). */
  function NewDso(s: State, name: string): State {
    HoldDsos(s.(dsos := s.dsos[s.next := Dso(name, 1, false)], next := s.next + 1), s.held.dsos + multiset{s.next})
  }

  lemma NewDsoInv(s: State, name: string)
    requires Inv(s)
    ensures Inv(NewDso(s, name)) && s.next !in s.dsos
  {
    Unborn(s);
    assert MapsOkBody(Seal, s.maps, s.held.maps, s.dsos.Keys);
    assert Users(s.maps, s.next) == {};
    var r := Dso(name, 1, false);
    DsosPut(s.dsos, s.maps, s.held.dsos, s.next, r, s.held.dsos + multiset{s.next});
    ListDso(s.list, s.dsos, s.next, r);
    MapsMore(s.maps, s.held.maps, s.dsos.Keys, s.next);
    assert s.dsos[s.next := r].Keys == s.dsos.Keys + {s.next};
    BornDso(s.freed, s.born, s.next, KeysOf(s), KeysOf(NewDso(s, name)));
  }

  lemma BornDso(freed: seq<Object>, born: set<Object>, next: Id, keys: Keys, more: Keys)
    requires FreedOk(freed, born, next, keys) && more == keys.(dsos := keys.dsos + {next})
    ensures FreedOk(freed, born, next + 1, more)
  {
    assert FreedOkBody(Seal, freed, born, next, keys);
    assert FreedOkBody(Seal, freed, born, next + 1, more);
  }

  lemma MapsMore(maps: map<Id, Map>, held: multiset<Id>, dsos: set<Id>, d: Id)
    requires MapsOk(maps, held, dsos)
    ensures MapsOk(maps, held, dsos + {d})
  {
    assert MapsOkBody(Seal, maps, held, dsos);
    assert MapsOkBody(Seal, maps, held, dsos + {d});
  }

  /** No listed DSO has that name. */
  predicate Unnamed(s: State, name: string) {
    forall d :: d in s.list ==> d in s.dsos && s.dsos[d].name != name
  }

  /** __dsos__add: the list takes a reference of its own. */
  function AddDso(s: State, d: Id): State
    requires d in s.dsos
  {
    s.(dsos := s.dsos[d := s.dsos[d].(refs := s.dsos[d].refs + 1, listed := true)], list := s.list + [d])
  }

  lemma AddDsoInv(s: State, d: Id)
    requires Inv(s) && d in s.dsos && !s.dsos[d].listed && Unnamed(s, s.dsos[d].name)
    ensures Inv(AddDso(s, d))
  {
    var r := AddDso(s, d).dsos[d];
    DsosPut(s.dsos, s.maps, s.held.dsos, d, r, s.held.dsos);
    assert ListOkBody(Seal, s.list, s.dsos);
    assert ListOkBody(Seal, s.list + [d], s.dsos[d := r]);
    assert s.dsos[d := r].Keys == s.dsos.Keys;
  }

  /** list_del_init of the first DSO: the list's reference is now held by the purge. */
  function UnlistFirst(s: State): State
    requires s.list != [] && s.list[0] in s.dsos
  {
    var d := s.list[0];
    HoldDsos(s.(dsos := s.dsos[d := s.dsos[d].(listed := false)], list := s.list[1..]), s.held.dsos + multiset{d})
  }

  lemma UnlistFirstInv(s: State)
    requires Inv(s) && s.list != []
    ensures s.list[0] in s.dsos && Inv(UnlistFirst(s))
  {
    var d := s.list[0];
    assert ListOkBody(Seal, s.list, s.dsos);
    assert d in s.list && s.list == [d] + s.list[1..];
    var r := s.dsos[d].(listed := false);
    DsosPut(s.dsos, s.maps, s.held.dsos, d, r, s.held.dsos + multiset{d});
    assert ListOkBody(Seal, s.list[1..], s.dsos[d := r]);
    assert s.dsos[d := r].Keys == s.dsos.Keys;
  }

  // ---------------------------------------------------------------- what the invariant says of one object

  lemma IndexFacts(s: State, tid: Pid)
    requires Inv(s) && tid in s.index
    ensures s.index[tid] in s.threads && s.threads[s.index[tid]].linked && s.threads[s.index[tid]].tid == tid
  {
    assert IndexOkBody(Seal, s.index, s.threads);
  }

  lemma IndexOf(s: State, t: Id)
    requires Inv(s) && t in s.threads && s.threads[t].linked
    ensures s.threads[t].tid in s.index && s.index[s.threads[t].tid] == t
  {
    assert IndexOkBody(Seal, s.index, s.threads);
  }

  /** A linked thread that is held has more than one reference. */
  lemma LinkedStays(s: State, l: Id)
    requires Inv(s) && l in s.held.threads && l in s.threads && s.threads[l].linked
    ensures s.threads[l].refs > 1
  {
    assert ThreadsOkBody(Seal, s.threads, s.held.threads, s.spaces.Keys);
  }

  lemma HeldMap(s: State, m: Id)
    requires Inv(s) && m in s.held.maps
    ensures m in s.maps && s.maps[m].refs > 0
  {
    assert MapsOkBody(Seal, s.maps, s.held.maps, s.dsos.Keys);
  }

  lemma HeldSpace(s: State, x: Id)
    requires Inv(s) && x in s.held.spaces
    ensures x in s.spaces && s.spaces[x].refs > 0
  {
    assert SpacesOkBody(Seal, s.spaces, s.threads, s.held.spaces);
  }

  lemma HeldThread(s: State, t: Id)
    requires Inv(s) && t in s.held.threads
    ensures t in s.threads && s.threads[t].refs > 0
  {
    assert ThreadsOkBody(Seal, s.threads, s.held.threads, s.spaces.Keys);
  }
}

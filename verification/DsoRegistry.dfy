/**
 The registry of DSOs (src/dso.c:23-162, 521-604): a tree ordered by long name and a list in
 the order of first request.  `basename` stands for the function of libgen.
 */
module DsoRegistry {
  import opened Seqs
  import opened RbTrees
  import opened RbLinks
  import opened RbHeap
  import opened RbTree
  import opened RbIterate
  import opened RbSearch
  import opened Strings

  class Dso {
    const longName: string
    var shortName: string

    /** dso__new (src/dso.c:145-162). */
    constructor (name: string)
      ensures longName == name && shortName == name
    {
      longName, shortName := name, name;
    }
  }

  type DsoNode = Node<Dso, ()>

  ghost predicate NamedBelow(name: string, n: DsoNode) {
    Compare(n.entry.longName, name) < 0
  }

  ghost predicate NamedAbove(name: string, n: DsoNode) {
    Compare(name, n.entry.longName) < 0
  }

  ghost function Rights(name: string): DsoNode -> bool {
    (n: DsoNode) => NamedBelow(name, n)
  }

  ghost function Lefts(name: string): DsoNode -> bool {
    (n: DsoNode) => NamedAbove(name, n)
  }

  ghost function NameLess(a: DsoNode, b: DsoNode): bool {
    Compare(a.entry.longName, b.entry.longName) < 0
  }

  ghost predicate Named(s: seq<DsoNode>, name: string) {
    exists i :: 0 <= i < |s| && s[i].entry.longName == name
  }

  /** Another DSO with both names equal. */
  ghost predicate Twin(s: set<DsoNode>, d: Dso)
    reads d, set n | n in s :: n.entry
  {
    exists n :: n in s && n.entry.longName == d.longName && n.entry.shortName == d.shortName
  }

  lemma NameSides(s: seq<DsoNode>, name: string)
    requires Ordered(s, NameLess)
    ensures Prefix(s, Rights(name)) && Suffix(s, Lefts(name))
  {
    forall i, j | 0 <= i < j < |s| && NamedBelow(name, s[j]) ensures NamedBelow(name, s[i]) {
      assert NameLess(s[i], s[j]);
      CompareChain(s[i].entry.longName, s[j].entry.longName, name);
    }
    forall i, j | 0 <= i < j < |s| && NamedAbove(name, s[i]) ensures NamedAbove(name, s[j]) {
      assert NameLess(s[i], s[j]);
      CompareChain(name, s[i].entry.longName, s[j].entry.longName);
    }
  }

  lemma NotNamed(s: seq<DsoNode>, name: string)
    requires Either(s, Rights(name), Lefts(name))
    ensures !Named(s, name)
  {
    forall i | 0 <= i < |s| ensures s[i].entry.longName != name {
      assert Rights(name)(s[i]) || Lefts(name)(s[i]);
      CompareEqual(name, name);
    }
  }

  // ---------------------------------------------------------------- the order of first requests

  function Firsts(requests: seq<string>): seq<string> {
    if requests == [] then []
    else
      var n := |requests| - 1;
      Firsts(requests[..n]) + if requests[n] in requests[..n] then [] else [requests[n]]
  }

  lemma {:induction false} FirstsContents(requests: seq<string>, name: string)
    ensures name in Firsts(requests) <==> name in requests
  {
    if requests != [] {
      var n := |requests| - 1;
      FirstsContents(requests[..n], name);
      assert requests == requests[..n] + [requests[n]];
    }
  }

  lemma {:induction false} FirstsDistinct(requests: seq<string>)
    ensures NoDup(Firsts(requests))
  {
    if requests != [] {
      var n := |requests| - 1;
      FirstsDistinct(requests[..n]);
      FirstsContents(requests[..n], requests[n]);
    }
  }

  ghost function Names(s: seq<DsoNode>): seq<string> {
    seq(|s|, i requires 0 <= i < |s| => s[i].entry.longName)
  }

  /** What the registry guarantees after the given requests. */
  ghost predicate Agree(s: seq<DsoNode>, head: seq<DsoNode>, requests: seq<string>) {
    forall k: Seal :: Agrees(k, s, head, requests)
  }

  ghost predicate Agrees(k: Seal, s: seq<DsoNode>, head: seq<DsoNode>, requests: seq<string>) {
    Ordered(s, NameLess) && multiset(head) == multiset(s) && Names(head) == Firsts(requests)
  }

  class Dsos {
    const basename: string -> string
    const root: Root<Dso, ()>
    var head: seq<DsoNode>
    ghost var requests: seq<string>

    constructor (basename: string -> string)
      ensures Valid() && this.basename == basename && requests == [] && head == [] && fresh(root) && root.nodes == {}
    {
      this.basename := basename;
      root := new Root(Plain());
      head, requests := [], [];
    }

    ghost predicate Valid()
      reads this, root, root.nodes
    {
      root.Valid() && Agree(root.Seq(), head, requests)
    }

    /** __dso__find_by_longname (src/dso.c:72-76): the descent without a DSO to link. */
    method FindByLongName(name: string) returns (n: Node?<Dso, ()>)
      requires Valid()
      ensures Valid()
      ensures n != null ==> n in root.nodes && n.entry.longName == name
      ensures n == null <==> !Named(root.Seq(), name)
    {
      assert Agrees(Seal, root.Seq(), head, requests);
      NameSides(root.Seq(), name);
      ghost var c, t := Top, root.tree;
      See(root, c, t);
      n := root.rb_node;
      while n != null
        invariant Valid() && root.tree == Plug(c, t) && Ref(n) == Ptr(t)
        invariant Between(c, Rights(name), Lefts(name)) && Prefix(root.Seq(), Rights(name))
          && Suffix(root.Seq(), Lefts(name))
        decreases t
      {
        See(root, c, t);
        Member(c, t);
        var rc := Compare(name, n.entry.longName);
        CompareEqual(name, n.entry.longName);
        CompareFlip(name, n.entry.longName);
        if rc == 0 {
          return;
        }
        if rc < 0 {
          GoLeft(c, t, Rights(name), Lefts(name));
          c, t := In(Left, t.n, t.red, t.right, c), t.left;
          n := n.left;
        } else {
          GoRight(c, t, Rights(name), Lefts(name));
          c, t := In(Right, t.n, t.red, t.left, c), t.right;
          n := n.right;
        }
      }
      Bottom(c, Rights(name), Lefts(name));
      NotNamed(root.Seq(), name);
    }

    /**
     The descent of __dso__findlink_by_longname with a DSO (src/dso.c:34-62): among equal
     long names the short names decide, and a complete duplicate is not linked.
     */
    method FindSlot(dso: DsoNode) returns (duplicate: bool, parent: Node?<Dso, ()>, left: bool, ghost c: Ctx<DsoNode>)
      requires Valid()
      ensures Valid() && (duplicate ==> Twin(root.nodes, dso.entry))
      ensures !duplicate ==> root.tree == Plug(c, Nil) && Ref(parent) == Parent(c) && (c.In? ==> left == c.side.Left?)
      ensures !Named(root.Seq(), dso.entry.longName) ==>
                && !duplicate && root.Seq() == Before(c) + After(c)
                && Between(c, Rights(dso.entry.longName), Lefts(dso.entry.longName))
    {
      var name := dso.entry.longName;
      assert Agrees(Seal, root.Seq(), head, requests);
      NameSides(root.Seq(), name);
      ghost var t := root.tree;
      c := Top;
      See(root, c, t);
      var p := root.rb_node;
      duplicate, parent, left := false, null, false;
      while p != null
        invariant Valid() && root.tree == Plug(c, t) && Ref(p) == Ptr(t)
        invariant Ref(parent) == Parent(c) && (c.In? ==> left == c.side.Left?)
        invariant Prefix(root.Seq(), Rights(name)) && Suffix(root.Seq(), Lefts(name))
        invariant !Named(root.Seq(), name) ==> Between(c, Rights(name), Lefts(name))
        decreases t
      {
        See(root, c, t);
        Member(c, t);
        var rc := Compare(name, p.entry.longName);
        CompareEqual(name, p.entry.longName);
        CompareFlip(name, p.entry.longName);
        parent := p;
        if rc == 0 {
          rc := Compare(dso.entry.shortName, p.entry.shortName);
          CompareEqual(dso.entry.shortName, p.entry.shortName);
          if rc == 0 {
            return true, parent, left, c;
          }
        }
        if rc < 0 {
          if !Named(root.Seq(), name) { GoLeft(c, t, Rights(name), Lefts(name)); }
          c, t := In(Left, t.n, t.red, t.right, c), t.left;
          p, left := p.left, true;
        } else {
          if !Named(root.Seq(), name) { GoRight(c, t, Rights(name), Lefts(name)); }
          c, t := In(Right, t.n, t.red, t.left, c), t.right;
          p, left := p.right, false;
        }
      }
      if !Named(root.Seq(), name) { Bottom(c, Rights(name), Lefts(name)); }
    }

    /** __dsos__add (src/dso.c:521-546) for a name that is not registered. */
    method Add(n: DsoNode)
      requires Valid() && !Named(root.Seq(), n.entry.longName) && n !in root.nodes
      modifies this, root, root.nodes, n
      ensures Valid() && requests == old(requests) + [n.entry.longName] && head == old(head) + [n]
      ensures root.nodes == old(root.nodes) + {n}
    {
      var duplicate, parent, left;
      ghost var c;
      duplicate, parent, left, c := FindSlot(n);
      Added(Before(c), n, After(c), head, requests);
      LinkInsert(root, n, parent, left, c);
      head := head + [n];
      requests := requests + [n.entry.longName];
    }

    /** __dsos__addnew (src/dso.c:577-588): linked under its long name, then given its short name. */
    method AddNew(name: string) returns (n: DsoNode)
      requires Valid() && !Named(root.Seq(), name)
      modifies this, root, root.nodes
      ensures Valid() && requests == old(requests) + [name] && head == old(head) + [n]
      ensures fresh(n) && n.entry.longName == name && n.entry.shortName == basename(name)
        && root.nodes == old(root.nodes) + {n}
    {
      var dso := new Dso(name);
      n := new Node(dso, ());
      Add(n);
      dso.shortName := basename(name);
    }

    /** dsos__findnew (src/dso.c:590-604). */
    method FindNew(name: string) returns (n: DsoNode)
      requires Valid()
      modifies this, root, root.nodes
      ensures Valid() && requests == old(requests) + [name] && old(head) <= head
      ensures n in head && n.entry.longName == name
      ensures fresh(root.nodes - old(root.nodes))
      ensures name in old(requests) ==> head == old(head) && root.nodes == old(root.nodes)
      ensures name !in old(requests) ==> head == old(head) + [n] && fresh(n) && n.entry.shortName == basename(name)
    {
      assert Agrees(Seal, root.Seq(), head, requests);
      NamedIffRequested(root.Seq(), head, requests, name);
      var found := FindByLongName(name);
      if found != null {
        n := found;
        InBoth(root, head, n);
        Again(root.Seq(), head, requests, name);
        requests := requests + [name];
      } else {
        n := AddNew(name);
      }
    }
    }

  /** Linking a new name keeps the registry's guarantee. */
  lemma Added(a: seq<DsoNode>, n: DsoNode, b: seq<DsoNode>, head: seq<DsoNode>, requests: seq<string>)
    requires Agree(a + b, head, requests) && !Named(a + b, n.entry.longName)
    requires All(a, Rights(n.entry.longName)) && All(b, Lefts(n.entry.longName))
    ensures Agree(a + [n] + b, head + [n], requests + [n.entry.longName])
  {
    var s, name := a + b, n.entry.longName;
    assert Agrees(Seal, s, head, requests);
    NamedIffRequested(s, head, requests, name);
    forall i | 0 <= i < |a| ensures NameLess(a[i], n) { assert Rights(name)(a[i]); }
    forall i | 0 <= i < |b| ensures NameLess(n, b[i]) { assert Lefts(name)(b[i]); }
    OrderedInsert(a, n, b, NameLess);
    assert (requests + [name])[..|requests|] == requests;
    assert Names(head + [n]) == Names(head) + [name];
  }

  /** Asking again for a registered name keeps it, too. */
  lemma Again(s: seq<DsoNode>, head: seq<DsoNode>, requests: seq<string>, name: string)
    requires Agree(s, head, requests) && name in requests
    ensures Agree(s, head, requests + [name])
  {
    assert Agrees(Seal, s, head, requests);
    assert (requests + [name])[..|requests|] == requests;
  }

  lemma NamedIffRequested(s: seq<DsoNode>, head: seq<DsoNode>, requests: seq<string>, name: string)
    requires Agrees(Seal, s, head, requests)
    ensures Named(s, name) <==> name in requests
  {
    FirstsContents(requests, name);
    if Named(s, name) {
      var i :| 0 <= i < |s| && s[i].entry.longName == name;
      assert s[i] in multiset(head);
      var j :| 0 <= j < |head| && head[j] == s[i];
      assert Names(head)[j] == name;
    }
    if name in requests {
      var j :| 0 <= j < |Names(head)| && Names(head)[j] == name;
      assert head[j] in multiset(s);
      var i :| 0 <= i < |s| && s[i] == head[j];
    }
  }

  lemma InBoth(root: Root<Dso, ()>, head: seq<DsoNode>, n: DsoNode)
    requires root.Shaped() && n in root.nodes && multiset(head) == multiset(root.Seq())
    ensures n in head
  {
    InorderNodes(root.tree);
    assert n in multiset(head);
  }

  /** No name is registered twice, so the name determines the object. */
  lemma OneObject(s: seq<DsoNode>, head: seq<DsoNode>, requests: seq<string>, a: DsoNode, b: DsoNode)
    requires Agree(s, head, requests) && a in head && b in head
    ensures a == b <==> a.entry.longName == b.entry.longName
  {
    assert Agrees(Seal, s, head, requests);
    FirstsDistinct(requests);
    var i :| 0 <= i < |head| && head[i] == a;
    var j :| 0 <= j < |head| && head[j] == b;
    assert Names(head)[i] == a.entry.longName && Names(head)[j] == b.entry.longName;
  }

  ghost predicate AllIn(objects: seq<DsoNode>, head: seq<DsoNode>, names: seq<string>) {
    |objects| == |names| && forall i :: 0 <= i < |objects| ==>
      objects[i] in head && objects[i].entry.longName == names[i]
  }

  ghost predicate SameIffNamed(objects: seq<DsoNode>, names: seq<string>) {
    |objects| == |names| && forall i, j :: 0 <= i < |objects| && 0 <= j < |objects| ==>
      (objects[i] == objects[j] <==> names[i] == names[j])
  }

  /**
   Any sequence of requests to an empty registry: equal names get the same object and
   different names different ones, and the list is in the order of first request.
   */
  method RequestAll(dsos: Dsos, names: seq<string>) returns (objects: seq<DsoNode>)
    requires dsos.Valid() && dsos.requests == []
    modifies dsos, dsos.root, dsos.root.nodes
    ensures dsos.Valid() && Names(dsos.head) == Firsts(names) && Ordered(dsos.root.Seq(), NameLess)
    ensures forall i, j :: 0 <= i < j < |dsos.root.Seq()| ==>
      Compare(dsos.root.Seq()[i].entry.longName, dsos.root.Seq()[j].entry.longName) < 0
    ensures multiset(dsos.head) == multiset(dsos.root.Seq()) && SameIffNamed(objects, names)
  {
    objects := [];
    for k := 0 to |names|
      invariant dsos.Valid() && dsos.requests == names[..k] && fresh(dsos.root.nodes - old(dsos.root.nodes))
      invariant AllIn(objects, dsos.head, names[..k])
    {
      var n := dsos.FindNew(names[k]);
      objects := objects + [n];
    }
    assert names[..|names|] == names;
    assert Agrees(Seal, dsos.root.Seq(), dsos.head, dsos.requests);
    forall i, j | 0 <= i < |objects| && 0 <= j < |objects| ensures objects[i] == objects[j] <==> names[i] == names[j] {
      OneObject(dsos.root.Seq(), dsos.head, dsos.requests, objects[i], objects[j]);
    }
  }
}

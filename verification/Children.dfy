/** The edges of the object graph, as the searches enumerate them. */
module Children {
  import opened Basics
  import opened ObjectModel

  /** How a child was found: a member cell, a list slot or a dict entry. */
  datatype Via = Attribute(name: string, addr: int, isPtr: bool) | ListItem(at: int, index: nat) | DictItem(at: int,
      index: nat)

  datatype Edge = Edge(child: Ref, via: Via) {
    /** An embedded object, as opposed to the target of a pointer or an item of a container. */
    predicate Embedded() {
      via.Attribute? && !via.isPtr
    }
  }

  function EntryEdges(h: Heap, b: nat, m: VarEntry, at: int, persistOnly: bool): seq<Edge>
    requires b in h
  {
    var o := at + m.offset;
    if persistOnly && !m.persist then [] else
      match m.varType
      case Plain => []
      case Root(_) => [Edge(At(b, o), Attribute(m.name, o, false))]
      case RootPtr => if o in h[b].ptrs
          && h[b].ptrs[o].At? then [Edge(h[b].ptrs[o], Attribute(m.name, o, true))] else []
  }

  function TableEdges(h: Heap, b: nat, ms: seq<VarEntry>, at: int, persistOnly: bool): seq<Edge>
    requires b in h
  {
    if ms == [] then [] else
      TableEdges(h, b, ms[..|ms| - 1], at, persistOnly) + EntryEdges(h, b, ms[|ms| - 1], at, persistOnly)
  }

  function ItemVia(c: Container, at: int, i: nat): Via {
    if c.DictContainer? then DictItem(at, i) else ListItem(at, i)
  }

  /** The first `n` items of a container; empty slots are passed over. */
  function ItemEdges(rs: seq<Ref>, n: nat, c: Container, at: int): seq<Edge>
    requires n <= |rs|
  {
    if n == 0 then [] else
      ItemEdges(rs, n - 1, c, at) + (if rs[n - 1].At? then [Edge(rs[n - 1], ItemVia(c, at, n - 1))] else [])
  }

  function ContainerEdges(h: Heap, b: nat, c: Container, at: int): seq<Edge>
    requires b in h
  {
    if c.NoContainer? || at !in h[b].items then [] else ItemEdges(h[b].items[at], |h[b].items[at]|, c, at)
  }

  function ChainEdges(h: Heap, b: nat, cls: ClassInfo, at: int, persistOnly: bool): seq<Edge>
    requires b in h
  {
    TableEdges(h, b, cls.members, at, persistOnly) + ContainerEdges(h, b, cls.container, at) +
    (if cls.parent.Some? then ChainEdges(h, b, cls.parent.value, at + cls.offsetToParent, persistOnly) else [])
  }

  function Edges(h: Heap, r: Ref, persistOnly: bool): seq<Edge>
    requires IsObject(h, r)
  {
    ChainEdges(h, r.block, ClassOf(h, r), r.off, persistOnly)
  }

  method EnumerateTable(h: Heap, b: nat, ms: seq<VarEntry>, at: int, persistOnly: bool) returns (es: seq<Edge>)
    requires b in h
    ensures es == TableEdges(h, b, ms, at, persistOnly)
  {
    es := [];
    for i := 0 to |ms|
      invariant es == TableEdges(h, b, ms[..i], at, persistOnly)
    {
      var m := ms[i];
      assert ms[..i + 1][..i] == ms[..i];
      var o := at + m.offset;
      if m.varType != Plain && (!persistOnly || m.persist) {
        if m.varType.RootPtr? {
          if o in h[b].ptrs && h[b].ptrs[o].At? {
            es := es + [Edge(h[b].ptrs[o], Attribute(m.name, o, true))];
          }
        } else {
          es := es + [Edge(At(b, o), Attribute(m.name, o, false))];
        }
      }
    }
    assert ms[..|ms|] == ms;
  }

  /** The key a dict gives for an index; none when its key cache is shorter. */
  function KeyAt(h: Heap, b: nat, at: int, index: nat): Option<string>
    requires b in h
  {
    if index < KeyCount(h, b, at) then Some(h[b].keys[at][index]) else None
  }

  function KeyCount(h: Heap, b: nat, at: int): nat
    requires b in h
  {
    if at in h[b].keys then |h[b].keys[at]| else 0
  }

  /** A dict gives a key for every item. */
  predicate ContainerListed(h: Heap, b: nat, c: Container, at: int)
    requires b in h
  {
    c.DictContainer? && at in h[b].items ==> |h[b].items[at]| <= KeyCount(h, b, at)
  }

  predicate ChainListed(h: Heap, b: nat, cls: ClassInfo, at: int)
    requires b in h
  {
    && ContainerListed(h, b, cls.container, at)
    && (cls.parent.Some? ==> ChainListed(h, b, cls.parent.value, at + cls.offsetToParent))
  }

  /** Every dict of the object's class chain gives a key for each of its items. */
  predicate Listed(h: Heap, r: Ref)
    requires IsObject(h, r)
  {
    ChainListed(h, r.block, ClassOf(h, r), r.off)
  }

  /** A dict's items are found by index and then key; without a key the program is undefined. */
  method EnumerateItems(h: Heap, b: nat, c: Container, at: int) returns (es: seq<Edge>, defined: bool)
    requires b in h
    ensures defined <==> ContainerListed(h, b, c, at)
    ensures defined ==> es == ContainerEdges(h, b, c, at)
  {
    es := [];
    if !c.NoContainer? && at in h[b].items {
      var items := h[b].items[at];
      for i := 0 to |items|
        invariant es == ItemEdges(items, i, c, at)
        invariant c.DictContainer? ==> i <= KeyCount(h, b, at)
      {
        if c.DictContainer? && KeyAt(h, b, at, i).None? {
          return es, false;
        }
        if items[i].At? {
          es := es + [Edge(items[i], ItemVia(c, at, i))];
        }
      }
    }
    defined := true;
  }

  function RestEdges(h: Heap, b: nat, t: Option<ClassInfo>, at: int, persistOnly: bool): seq<Edge>
    requires b in h
  {
    if t.Some? then ChainEdges(h, b, t.value, at, persistOnly) else []
  }

  function RestListed(h: Heap, b: nat, t: Option<ClassInfo>, at: int): bool
    requires b in h
  {
    t.Some? ==> ChainListed(h, b, t.value, at)
  }

  /** EnumerateChildren: walks the class chain, and in each class the members, then the container. */
  method EnumerateChildren(h: Heap, obj: Ref, persistOnly: bool) returns (es: seq<Edge>, defined: bool)
    requires IsObject(h, obj)
    ensures defined <==> Listed(h, obj)
    ensures defined ==> es == Edges(h, obj, persistOnly)
  {
    hide TableEdges, ContainerEdges, ContainerListed;
    es := [];
    var b := obj.block;
    var t: Option<ClassInfo> := Some(ClassOf(h, obj));
    var at := obj.off;
    while t.Some?
      invariant es + RestEdges(h, b, t, at, persistOnly) == Edges(h, obj, persistOnly)
      invariant Listed(h, obj) <==> RestListed(h, b, t, at)
      decreases t
    {
      var members := EnumerateTable(h, b, t.value.members, at, persistOnly);
      var items, listed := EnumerateItems(h, b, t.value.container, at);
      if !listed {
        return es, false;
      }
      assert RestEdges(h, b, t, at, persistOnly) ==
             members + items + RestEdges(h, b, t.value.parent, at + t.value.offsetToParent, persistOnly);
      es := es + members + items;
      at := at + t.value.offsetToParent;
      t := t.value.parent;
    }
    defined := true;
  }

  // ---------- what is recorded of an edge ----------

  /** Casting an object to a container interface finds the first one of the chain. */
  function CastTo(c: Container, cls: ClassInfo, at: int): Option<int> {
    if cls.container == c then Some(at)
    else if cls.parent.Some? then CastTo(c, cls.parent.value, at + cls.offsetToParent)
    else None
  }

  /** What a path item says of an edge besides the parent: a name, or a key or index in the parent. */
  datatype PathItem = NameItem(name: string) | KeyItem(key: Option<string>) | IndexItem(index: nat)

  /** Items of an object that is a dict are recorded by key, whatever list it may be too. */
  function GetPathItem(h: Heap, parent: Ref, e: Edge): PathItem
    requires IsObject(h, parent)
  {
    match e.via
    case Attribute(name, _, _) => NameItem(name)
    case _ =>
      var dict := CastTo(DictContainer, ClassOf(h, parent), parent.off);
      if dict.Some? then KeyItem(KeyAt(h, parent.block, dict.value, e.via.index)) else IndexItem(e.via.index)
  }

  // ---------- containment ----------

  /** The number of objects embedded in an instance of a class, itself included. */
  function Weight(cls: ClassInfo): (w: nat)
    ensures w > 0
    decreases cls, 1
  {
    1 + TableWeight(cls.members) + (if cls.parent.Some? then Weight(cls.parent.value) else 0)
  }

  function TableWeight(ms: seq<VarEntry>): nat
    decreases ms, 0
  {
    if ms == [] then 0 else
      var m := ms[|ms| - 1];
      TableWeight(ms[..|ms| - 1]) + (if m.varType.Root? then Weight(m.varType.cls) else 0)
  }

  datatype Field = Field(entry: VarEntry, at: int)

  function TableFields(ms: seq<VarEntry>, at: int): (fs: seq<Field>)
    ensures |fs| == |ms| && forall i | 0 <= i < |ms| :: fs[i] == Field(ms[i], at)
  {
    seq(|ms|, i requires 0 <= i < |ms| => Field(ms[i], at))
  }

  /** The entries of all member tables of a class chain, each with the place of its table. */
  function Fields(cls: ClassInfo, at: int): seq<Field> {
    TableFields(cls.members, at) +
    (if cls.parent.Some? then Fields(cls.parent.value, at + cls.offsetToParent) else [])
  }

  /** Every pointer, item and embedded member leads to an object; an embedded one of the declared class. */
  ghost predicate GraphOk(h: Heap) {
    && (forall b, o | b in h && o in h[b].ptrs && h[b].ptrs[o].At? :: IsObject(h, h[b].ptrs[o]))
    && (forall b, o, i | b in h && o in h[b].items && 0 <= i < |h[b].items[o]| && h[b].items[o][i].At? ::
        IsObject(h, h[b].items[o][i]))
    && (forall r, f | IsObject(h, r) && f in Fields(ClassOf(h, r), r.off) && f.entry.varType.Root? ::
          EmbeddedOk(h, r.block, f))
  }

  ghost predicate EmbeddedOk(h: Heap, b: nat, f: Field) {
    f.entry.varType.Root? && IsObject(h, At(b, f.at + f.entry.offset))
        && ClassOf(h, At(b, f.at + f.entry.offset)) == f.entry.varType.cls
  }

  function EmbeddedWeight(h: Heap, es: seq<Edge>): nat
    requires forall e | e in es :: IsObject(h, e.child)
  {
    if es == [] then 0 else
      var e := es[|es| - 1];
      EmbeddedWeight(h, es[..|es| - 1]) + (if e.Embedded() then Weight(ClassOf(h, e.child)) else 0)
  }

  lemma {:induction false} EmbeddedWeightAdds(h: Heap, es: seq<Edge>, fs: seq<Edge>)
    requires forall e | e in es + fs :: IsObject(h, e.child)
    ensures forall e | e in es :: e in es + fs
    ensures forall e | e in fs :: e in es + fs
    ensures EmbeddedWeight(h, es + fs) == EmbeddedWeight(h, es) + EmbeddedWeight(h, fs)
  {
    if fs == [] {
      assert es + fs == es;
    } else {
      var front := fs[..|fs| - 1];
      assert (es + fs)[..|es + fs| - 1] == es + front;
      EmbeddedWeightAdds(h, es, front);
    }
  }

  lemma {:induction false} TableEdgesOk(h: Heap, b: nat, ms: seq<VarEntry>, at: int, p: bool)
    requires GraphOk(h) && b in h
    requires forall m | m in ms && m.varType.Root? :: EmbeddedOk(h, b, Field(m, at))
    ensures forall e | e in TableEdges(h, b, ms, at, p) :: IsObject(h, e.child)
    ensures EmbeddedWeight(h, TableEdges(h, b, ms, at, p)) <= TableWeight(ms)
  {
    hide GraphOk, EmbeddedOk, EntryEdges, EmbeddedWeight, Weight;
    if ms == [] {
      NoWeight(h);
    } else {
      var front, m := ms[..|ms| - 1], ms[|ms| - 1];
      TableEdgesOk(h, b, front, at, p);
      var last := EntryEdges(h, b, m, at, p);
      assert m in ms;
      EntryEdgesOk(h, b, m, at, p);
      EmbeddedWeightAdds(h, TableEdges(h, b, front, at, p), last);
    }
  }

  lemma EntryEdgesOk(h: Heap, b: nat, m: VarEntry, at: int, p: bool)
    requires GraphOk(h) && b in h
    requires m.varType.Root? ==> EmbeddedOk(h, b, Field(m, at))
    ensures forall e | e in EntryEdges(h, b, m, at, p) :: IsObject(h, e.child)
    ensures EmbeddedWeight(h, EntryEdges(h, b, m, at, p)) <= if m.varType.Root? then Weight(m.varType.cls) else 0
  {
    hide Weight;
    var es := EntryEdges(h, b, m, at, p);
    if es != [] { assert es[..|es| - 1] == []; }
  }

  lemma {:induction false} ItemEdgesOk(h: Heap, rs: seq<Ref>, n: nat, c: Container, at: int)
    requires n <= |rs| && forall i | 0 <= i < |rs| && rs[i].At? :: IsObject(h, rs[i])
    ensures forall e | e in ItemEdges(rs, n, c, at) :: IsObject(h, e.child) && !e.Embedded()
    ensures EmbeddedWeight(h, ItemEdges(rs, n, c, at)) == 0
  {
    if n > 0 {
      ItemEdgesOk(h, rs, n - 1, c, at);
      var last := if rs[n - 1].At? then [Edge(rs[n - 1], ItemVia(c, at, n - 1))] else [];
      EmbeddedWeightAdds(h, ItemEdges(rs, n - 1, c, at), last);
    }
  }

  lemma {:induction false} ChainEdgesOk(h: Heap, b: nat, cls: ClassInfo, at: int, p: bool)
    requires GraphOk(h) && b in h
    requires forall f | f in Fields(cls, at) && f.entry.varType.Root? :: EmbeddedOk(h, b, f)
    ensures forall e | e in ChainEdges(h, b, cls, at, p) :: IsObject(h, e.child)
    ensures EmbeddedWeight(h, ChainEdges(h, b, cls, at, p)) < Weight(cls)
  {
    hide TableEdges, ItemEdges, EmbeddedOk, GraphOk, EmbeddedWeight, TableWeight;
    var table, items := TableEdges(h, b, cls.members, at, p), ContainerEdges(h, b, cls.container, at);
    forall m | m in cls.members && m.varType.Root? ensures EmbeddedOk(h, b, Field(m, at)) {
      assert Field(m, at) in TableFields(cls.members, at);
    }
    TableEdgesOk(h, b, cls.members, at, p);
    ContainerEdgesOk(h, b, cls.container, at);
    EmbeddedWeightAdds(h, table, items);
    var rest := if cls.parent.Some? then ChainEdges(h, b, cls.parent.value, at + cls.offsetToParent, p) else [];
    if cls.parent.Some? {
      ChainEdgesOk(h, b, cls.parent.value, at + cls.offsetToParent, p);
    } else {
      NoWeight(h);
    }
    EmbeddedWeightAdds(h, table + items, rest);
  }

  lemma NoWeight(h: Heap)
    ensures EmbeddedWeight(h, []) == 0
  {
  }

  lemma ContainerEdgesOk(h: Heap, b: nat, c: Container, at: int)
    requires GraphOk(h) && b in h
    ensures forall e | e in ContainerEdges(h, b, c, at) :: IsObject(h, e.child)
    ensures EmbeddedWeight(h, ContainerEdges(h, b, c, at)) == 0
  {
    if at in h[b].items {
      ItemEdgesOk(h, h[b].items[at], |h[b].items[at]|, c, at);
    }
  }

  /** Children are objects, and the embedded ones weigh less than their owner. */
  lemma EdgesOk(h: Heap, r: Ref, p: bool)
    requires GraphOk(h) && IsObject(h, r)
    ensures forall e | e in Edges(h, r, p) :: IsObject(h, e.child)
    ensures EmbeddedWeight(h, Edges(h, r, p)) < Weight(ClassOf(h, r))
  {
    ChainEdgesOk(h, r.block, ClassOf(h, r), r.off, p);
  }
}

/** What the records of references say, read back without the function that makes them. */
module Records {
  import opened Basics
  import opened ObjectModel
  import opened Children
  import opened Chains
  import opened GraphEdges
  import opened Search
  import opened FindReferences
  import opened Routes
  import opened RouteSteps

  /** A dict's key for an index, if it has one. */
  ghost predicate IsKeyAt(b: Block, at: int, i: nat, key: Option<string>) {
    if at in b.keys && i < |b.keys[at]| then key == Some(b.keys[at][i]) else key == None
  }

  /**
   What is recorded of the edge that a place gives: the member's name; the index of an item, or in an
   object whose chain has a dict, the key that its first dict has for the index.
   */
  ghost predicate RecordedAs(b: Block, ls: seq<Link>, p: Place, item: PathItem)
    requires p.link < |ls|
  {
    if !p.item then p.index < |ls[p.link].cls.members| && item == NameItem(ls[p.link].cls.members[p.index].name)
    else if exists j: nat :: FirstOf(ls, DictContainer, j) then
      exists j: nat :: FirstOf(ls, DictContainer, j) && item.KeyItem? && IsKeyAt(b, ls[j].at, p.index, item.key)
    else item == IndexItem(p.index)
  }

  /** The record of an edge says where it is from, and nothing else does. */
  lemma RecordedExactly(h: Heap, r: Ref, p: Place, e: Edge, item: PathItem)
    requires IsObject(h, r) && Gives(h, r.block, Links(ClassOf(h, r), r.off), false, p, e)
    ensures GetPathItem(h, r, e) == item <==> RecordedAs(h[r.block], Links(ClassOf(h, r), r.off), p, item)
  {
    hide Links, IsChain, CastTo;
    FirstIsCast(h, r, DictContainer);
  }

  // ---------- resolving ----------

  /** What a record leads to: the member of that name, the item of the first list, or the value of the first dict. */
  ghost predicate Resolves(h: Heap, r: Ref, item: PathItem, c: Ref)
    requires IsObject(h, r)
  {
    var b := h[r.block];
    var ls := Links(ClassOf(h, r), r.off);
    match item
    case NameItem(name) => exists k: nat, n: nat :: NamedMember(h, r.block, ls, k, n, name, c)
    case IndexItem(i) => exists j: nat :: FirstOf(ls, ListContainer, j) && HasItem(b, ls[j].at, i, c)
    case KeyItem(key) =>
      exists j: nat, i: nat ::
        FirstOf(ls, DictContainer, j) && key.Some? && IsKeyAt(b, ls[j].at, i, key) && HasItem(b, ls[j].at, i, c)
  }

  ghost predicate HasItem(b: Block, at: int, i: nat, c: Ref) {
    at in b.items && i < |b.items[at]| && b.items[at][i] == c
  }

  ghost predicate NamedMember(h: Heap, b: nat, ls: seq<Link>, k: nat, n: nat, name: string, c: Ref)
    requires b in h
  {
    && HasName(ls, k, n, name)
    && exists e :: GivesMember(h, b, ls[k].cls.members[n], ls[k].at, false, e) && e.child == c
  }

  ghost predicate HasName(ls: seq<Link>, k: nat, n: nat, name: string) {
    k < |ls| && n < |ls[k].cls.members| && ls[k].cls.members[n].name == name
  }

  ghost predicate NameOnce(ls: seq<Link>, name: string) {
    forall k: nat, n: nat, i: nat, j: nat | HasName(ls, k, n, name) && HasName(ls, i, j, name) :: k == i && n == j
  }

  /** The edge of a member whose name is there once, or of an item of the container looked in, by a good key. */
  ghost predicate RecordGood(h: Heap, r: Ref, p: Place)
    requires IsObject(h, r)
  {
    var ls := Links(ClassOf(h, r), r.off);
    p.link < |ls| &&
    if !p.item then p.index < |ls[p.link].cls.members| && NameOnce(ls, ls[p.link].cls.members[p.index].name)
    else if exists j: nat :: FirstOf(ls, DictContainer, j) then
      FirstOf(ls, DictContainer, p.link) && GoodKeys(h, r.block, ls[p.link].at)
    else FirstOf(ls, ListContainer, p.link)
  }

  /** A record leads back to the child it is listed under, and to nothing else. */
  lemma RecordResolves(h: Heap, r: Ref, p: Place, e: Edge, c: Ref)
    requires IsObject(h, r) && Gives(h, r.block, Links(ClassOf(h, r), r.off), false, p, e) && RecordGood(h, r, p)
    ensures Resolves(h, r, GetPathItem(h, r, e), c) <==> c == e.child
  {
    hide Links, IsChain, GetPathItem;
    var item := GetPathItem(h, r, e);
    RecordedExactly(h, r, p, e, item);
    var ls, b := Links(ClassOf(h, r), r.off), h[r.block];
    if !p.item {
      var name := ls[p.link].cls.members[p.index].name;
      assert HasName(ls, p.link, p.index, name);
      assert GivesMember(h, r.block, ls[p.link].cls.members[p.index], ls[p.link].at, false, e);
      assert NamedMember(h, r.block, ls, p.link, p.index, name, e.child);
    } else if item.KeyItem? {
      assert IsKeyAt(b, ls[p.link].at, p.index, item.key) && HasItem(b, ls[p.link].at, p.index, e.child);
    } else {
      assert HasItem(b, ls[p.link].at, p.index, e.child);
    }
  }

  /** Whatever the containers, an index record is the child's index in the list that has it. */
  lemma IndexHasChild(h: Heap, r: Ref, e: Edge)
    requires IsObject(h, r) && e in Edges(h, r, false) && GetPathItem(h, r, e).IndexItem?
    ensures e.via.ListItem? && HasItem(h[r.block], e.via.at, GetPathItem(h, r, e).index, e.child)
    ensures exists l :: l in Links(ClassOf(h, r), r.off) && l.cls.container == ListContainer && l.at == e.via.at
  {
    hide Links, IsChain, Edges, GetPathItem;
    EdgesExactly(h, r, false, e);
    var ls := Links(ClassOf(h, r), r.off);
    var p :| Gives(h, r.block, ls, false, p, e);
    RecordedExactly(h, r, p, e, GetPathItem(h, r, e));
    assert ls[p.link] in ls;
    if ls[p.link].cls.container == DictContainer { FirstExists(ls, DictContainer, p.link); }
  }

  /** A container of a kind somewhere in the chain means that there is a first one. */
  lemma {:induction false} FirstExists(ls: seq<Link>, c: Container, k: nat)
    requires k < |ls| && ls[k].cls.container == c
    ensures exists j: nat :: FirstOf(ls, c, j)
  {
    if FirstOf(ls, c, k) {
    } else {
      var j :| 0 <= j < k && ls[j].cls.container == c;
      FirstExists(ls, c, j);
    }
  }

  // ---------- steps of a search ----------

  /**
   A search goes from an object to what the places of its class chain give, unless it is pruned there; and
   the searches for references go everywhere.
   */
  lemma SearchStep(h: Heap, q: Query, a: Ref, c: Ref)
    ensures Step(h, q, a, c) <==>
            && IsObject(h, a) && !(q.prune && IsA(ClassOf(h, a), q.clsids))
            && exists p, e :: Gives(h, a.block, Links(ClassOf(h, a), a.off), q.persistOnly, p, e) && e.child == c
    ensures !Everything.prune && !Everything.persistOnly
  {
    hide Links, IsChain, Edges;
    if IsObject(h, a) {
      AllMatchExactly(q.clsids);
      forall e ensures e in Edges(h, a, q.persistOnly) <==>
                       exists p :: Gives(h, a.block, Links(ClassOf(h, a), a.off), q.persistOnly, p, e)
      {
        EdgesExactly(h, a, q.persistOnly, e);
      }
    }
  }

  /** The edges that routes are made of are those of all members and items. */
  lemma RouteEdge(h: Heap, r: Ref, e: Edge)
    requires IsObject(h, r)
    ensures e in E(h, r) <==> exists p :: Gives(h, r.block, Links(ClassOf(h, r), r.off), false, p, e)
  {
    hide Links, IsChain, Edges;
    EdgesExactly(h, r, false, e);
  }

  // ---------- recorded steps ----------

  /** The step for the edge that a place gives: a member's offset from the object, an index, or a key of the dict. */
  ghost predicate StepFor(r: Ref, b: Block, ls: seq<Link>, p: Place, step: Option<RouteStep>)
    requires r.At? && p.link < |ls|
  {
    if !p.item then
      p.index < |ls[p.link].cls.members| && var m := ls[p.link].cls.members[p.index];
      step == Some(AttributeStep(ls[p.link].at + m.offset - r.off, m.varType.RootPtr?))
    else if exists j: nat :: FirstOf(ls, DictContainer, j) then
      exists j: nat, key :: FirstOf(ls, DictContainer, j) && IsKeyAt(b, ls[j].at, p.index, key)
                            && step == if key.Some? then Some(KeyStep(key.value)) else None
    else step == Some(IndexStep(p.index))
  }

  lemma StepExactly(h: Heap, r: Ref, p: Place, e: Edge, step: Option<RouteStep>)
    requires IsObject(h, r) && Gives(h, r.block, Links(ClassOf(h, r), r.off), false, p, e)
    ensures GetRouteStep(h, Leg(r, e)) == step <==> StepFor(r, h[r.block], Links(ClassOf(h, r), r.off), p, step)
  {
    hide Links, IsChain, CastTo;
    FirstIsCast(h, r, DictContainer);
    var b, ls := h[r.block], Links(ClassOf(h, r), r.off);
    if j: nat :| FirstOf(ls, DictContainer, j) {
      assert IsKeyAt(b, ls[j].at, p.index, KeyAt(h, r.block, ls[j].at, p.index));
    }
  }

  /** Where a step leads: to the cell, the item of the first list, or the value at a key of the first dict. */
  lemma NextExactly(h: Heap, r: Ref, step: RouteStep, c: Ref)
    requires IsObject(h, r) && c != Null
    ensures var b := h[r.block]; var ls := Links(ClassOf(h, r), r.off);
            GetNextObject(h, step, r) == c <==>
            match step
            case AttributeStep(o, isPtr) =>
              if isPtr then r.off + o in b.ptrs && b.ptrs[r.off + o] == c else c == At(r.block, r.off + o)
            case IndexStep(i) => exists j: nat :: FirstOf(ls, ListContainer, j) && HasItem(b, ls[j].at, i, c)
            case KeyStep(key) =>
              exists j: nat, i: nat :: FirstOf(ls, DictContainer, j) && FirstKey(b, ls[j].at, i, key)
                                       && HasItem(b, ls[j].at, i, c)
  {
    hide Links, IsChain, CastTo;
    FirstIsCast(h, r, ListContainer);
    FirstIsCast(h, r, DictContainer);
    var b, ls := h[r.block], Links(ClassOf(h, r), r.off);
    match step
    case AttributeStep(o, isPtr) =>
    case IndexStep(i) =>
    case KeyStep(key) =>
      if j: nat :| FirstOf(ls, DictContainer, j) { SubscriptExactly(h, r.block, ls[j].at, key, c); }
  }

  lemma SubscriptExactly(h: Heap, b: nat, at: int, key: string, c: Ref)
    requires b in h && c != Null
    ensures Subscript(h, b, at, key) == c <==> exists i: nat :: FirstKey(h[b], at, i, key) && HasItem(h[b], at, i, c)
  {
    if at in h[b].keys {
      var i := IndexOf(h[b].keys[at], key);
      IndexOfIs(h[b].keys[at], key);
      assert i < |h[b].keys[at]| ==> FirstKey(h[b], at, i, key);
    }
  }

  ghost predicate FirstKey(b: Block, at: int, i: nat, key: string) {
    at in b.keys && i < |b.keys[at]| && b.keys[at][i] == key && forall j | 0 <= j < i :: b.keys[at][j] != key
  }

  lemma {:induction false} IndexOfIs(ks: seq<string>, key: string)
    ensures forall j | 0 <= j < IndexOf(ks, key) :: ks[j] != key
  {
    if ks != [] && ks[0] != key {
      IndexOfIs(ks[1..], key);
    }
  }
}

/** Routes as recorded steps, and replaying them. */
module RouteSteps {
  import opened Basics
  import opened ObjectModel
  import opened Children
  import opened Chains
  import opened Search
  import opened FindReferences
  import opened Routes

  /** A recorded step; an attribute is remembered relative to the object that has it. */
  datatype RouteStep = AttributeStep(offset: int, isPtr: bool) | IndexStep(index: nat) | KeyStep(key: string)

  /** The containers of a class chain, with their addresses. */
  function Containers(cls: ClassInfo, at: int): seq<(Container, int)> {
    (if cls.container.NoContainer? then [] else [(cls.container, at)]) +
    (if cls.parent.Some? then Containers(cls.parent.value, at + cls.offsetToParent) else [])
  }

  /** The containers of a class are those of the links of its chain. */
  lemma {:induction false} ContainersExactly(cls: ClassInfo, at: int, c: Container, o: int)
    ensures (c, o) in Containers(cls, at) <==>
            exists l :: l in Links(cls, at) && l.cls.container == c && c != NoContainer && l.at == o
  {
    hide Links, IsChain;
    ChainRest(cls, at);
    var own := if cls.container.NoContainer? then [] else [(cls.container, at)];
    var rest := if cls.parent.Some? then Containers(cls.parent.value, at + cls.offsetToParent) else [];
    assert Containers(cls, at) == own + rest;
    assert Link(cls, at) in Links(cls, at);
    if cls.parent.Some? {
      ContainersExactly(cls.parent.value, at + cls.offsetToParent, c, o);
    }
  }

  /**
   Which step is recorded for a leg: a key whenever the parent is a dict, whatever list it may be too.
   The program makes a string of the key without looking at it, so without a key there is no step.
   */
  function GetRouteStep(h: Heap, leg: Leg): Option<RouteStep>
    requires IsObject(h, leg.parent)
  {
    match leg.edge.via
    case Attribute(_, addr, isPtr) => Some(AttributeStep(addr - leg.parent.off, isPtr))
    case _ =>
      var dict := CastTo(DictContainer, ClassOf(h, leg.parent), leg.parent.off);
      var index := leg.edge.via.index;
      if dict.None? then Some(IndexStep(index)) else
        var key := KeyAt(h, leg.parent.block, dict.value, index);
        if key.Some? then Some(KeyStep(key.value)) else None
  }

  /** An item of an object that is a dict has an index below the number of the dict's keys. */
  ghost predicate Recordable(h: Heap, leg: Leg)
    requires IsObject(h, leg.parent)
  {
    var dict := CastTo(DictContainer, ClassOf(h, leg.parent), leg.parent.off);
    leg.edge.via.Attribute? || dict.None? || leg.edge.via.index < KeyCount(h, leg.parent.block, dict.value)
  }

  function Subscript(h: Heap, b: nat, at: int, key: string): Ref
    requires b in h
  {
    if at !in h[b].keys || at !in h[b].items then Null else
      var i := IndexOf(h[b].keys[at], key);
      if i < |h[b].keys[at]| && i < |h[b].items[at]| then h[b].items[at][i] else Null
  }

  function GetNextObject(h: Heap, step: RouteStep, parent: Ref): Ref
    requires IsObject(h, parent)
  {
    var b := parent.block;
    match step
    case AttributeStep(o, isPtr) =>
      if !isPtr then At(b, parent.off + o) else if parent.off + o in h[b].ptrs then h[b].ptrs[parent.off + o] else Null
    case IndexStep(i) =>
      var list := CastTo(ListContainer, ClassOf(h, parent), parent.off);
      if list.Some? && list.value in h[b].items && i < |h[b].items[list.value]| then h[b].items[list.value][i] else Null
    case KeyStep(key) =>
      var dict := CastTo(DictContainer, ClassOf(h, parent), parent.off);
      if dict.Some? then Subscript(h, b, dict.value, key) else Null
  }

  /** Follows recorded steps from an object; null as soon as a step leads nowhere. */
  function Replay(h: Heap, from: Ref, steps: seq<RouteStep>): Ref
    decreases |steps|
  {
    if steps == [] then from
    else if !IsObject(h, from) then Null
    else Replay(h, GetNextObject(h, steps[0], from), steps[1..])
  }

  // ---------- edges name their cells ----------

  ghost predicate Names(h: Heap, b: nat, cs: seq<(Container, int)>, e: Edge)
    requires b in h
  {
    match e.via
    case Attribute(_, addr, isPtr) =>
      if isPtr then addr in h[b].ptrs && h[b].ptrs[addr] == e.child else e.child == At(b, addr)
    case ListItem(at, i) => (ListContainer, at) in cs && at in h[b].items && i < |h[b].items[at]|
        && h[b].items[at][i] == e.child
    case DictItem(at, i) => (DictContainer, at) in cs && at in h[b].items && i < |h[b].items[at]|
                            && h[b].items[at][i] == e.child
  }

  lemma {:induction false} TableNames(h: Heap, b: nat, ms: seq<VarEntry>, at: int, p: bool, e: Edge)
    requires b in h && e in TableEdges(h, b, ms, at, p)
    ensures e.via.Attribute? && Names(h, b, [], e)
  {
    if e in TableEdges(h, b, ms[..|ms| - 1], at, p) {
      TableNames(h, b, ms[..|ms| - 1], at, p, e);
    }
  }

  lemma {:induction false} ItemNames(rs: seq<Ref>, n: nat, c: Container, at: int, e: Edge)
    requires n <= |rs| && e in ItemEdges(rs, n, c, at)
    ensures !e.via.Attribute? && e.via == ItemVia(c, at, e.via.index) && e.via.index < n && rs[e.via.index] == e.child
  {
    if e in ItemEdges(rs, n - 1, c, at) {
      ItemNames(rs, n - 1, c, at, e);
    }
  }

  lemma {:induction false} ChainNames(h: Heap, b: nat, cls: ClassInfo, at: int, p: bool, e: Edge)
    requires b in h && e in ChainEdges(h, b, cls, at, p)
    ensures Names(h, b, Containers(cls, at), e)
  {
    if e in TableEdges(h, b, cls.members, at, p) {
      TableNames(h, b, cls.members, at, p, e);
    } else if e in ContainerEdges(h, b, cls.container, at) {
      ItemNames(h[b].items[at], |h[b].items[at]|, cls.container, at, e);
      assert Containers(cls, at)[0] == (cls.container, at);
    } else {
      ChainNames(h, b, cls.parent.value, at + cls.offsetToParent, p, e);
    }
  }

  // ---------- replaying ----------

  /** The container that recorded item steps are taken in: the first dict of the chain, or else the first list. */
  function Accessed(cls: ClassInfo, at: int): Option<int> {
    var dict := CastTo(DictContainer, cls, at);
    if dict.Some? then dict else CastTo(ListContainer, cls, at)
  }

  ghost predicate AllAccessed(cls: ClassInfo, at: int) {
    forall c, o | (c, o) in Containers(cls, at) :: Accessed(cls, at) == Some(o)
  }

  /** A dict has a key for every value, and every key once. */
  ghost predicate GoodKeys(h: Heap, b: nat, at: int)
    requires b in h
  {
    && at in h[b].items && at in h[b].keys
    && |h[b].keys[at]| == |h[b].items[at]| && NoDup(h[b].keys[at])
  }

  /** The dicts of an object have good keys. Lists may have none. */
  ghost predicate DictsOk(h: Heap, r: Ref)
    requires IsObject(h, r)
  {
    forall at | (DictContainer, at) in Containers(ClassOf(h, r), r.off) && at in h[r.block].items ::
      GoodKeys(h, r.block, at)
  }

  /** What makes the step recorded for one leg a good one: an attribute, or an item of the container looked in. */
  ghost predicate LegReplayable(h: Heap, leg: Leg)
    requires IsObject(h, leg.parent)
  {
    var cls, off := ClassOf(h, leg.parent), leg.parent.off;
    leg.edge.via.Attribute?
    || (Accessed(cls, off) == Some(leg.edge.via.at)
        && (CastTo(DictContainer, cls, off).Some? ==> GoodKeys(h, leg.parent.block, leg.edge.via.at)))
  }

  /** An object all of whose items can be replayed: it has one container, a list or a dict with good keys. */
  ghost predicate Replayable(h: Heap, r: Ref)
    requires IsObject(h, r)
  {
    AllAccessed(ClassOf(h, r), r.off) && DictsOk(h, r)
  }

  lemma {:induction false} CastIsContainer(c: Container, cls: ClassInfo, at: int)
    requires c != NoContainer
    ensures CastTo(c, cls, at).Some? ==> (c, CastTo(c, cls, at).value) in Containers(cls, at)
    ensures (exists o :: (c, o) in Containers(cls, at)) ==> CastTo(c, cls, at).Some?
  {
    if cls.container == c {
      assert Containers(cls, at)[0] == (c, at);
    } else if cls.parent.Some? {
      CastIsContainer(c, cls.parent.value, at + cls.offsetToParent);
    }
  }

  lemma FindUnique(ks: seq<string>, i: nat)
    requires i < |ks| && forall a, b | 0 <= a < b < |ks| :: ks[a] != ks[b]
    ensures IndexOf(ks, ks[i]) == i
  {
    assert ks[IndexOf(ks, ks[i])] == ks[i];
  }

  ghost predicate Replays(h: Heap, leg: Leg)
    requires IsObject(h, leg.parent)
  {
    GetRouteStep(h, leg).Some? && GetNextObject(h, GetRouteStep(h, leg).value, leg.parent) == leg.edge.child
  }

  /** The step recorded for a leg leads from its parent to its child, if items are looked up where they are. */
  lemma StepReplays(h: Heap, leg: Leg)
    requires IsObject(h, leg.parent) && leg.edge in E(h, leg.parent)
    requires LegReplayable(h, leg)
    ensures Replays(h, leg)
  {
    hide ChainEdges, Containers, CastTo;
    var cls, off, b := ClassOf(h, leg.parent), leg.parent.off, leg.parent.block;
    ChainNames(h, b, cls, off, false, leg.edge);
    CastIsContainer(ListContainer, cls, off);
    CastIsContainer(DictContainer, cls, off);
    if !leg.edge.via.Attribute? && CastTo(DictContainer, cls, off).Some? {
      FindUnique(h[b].keys[leg.edge.via.at], leg.edge.via.index);
    }
  }

  lemma OneItemEdges(h: Heap, b: nat, c: Container, at: int)
    requires b in h && !c.NoContainer? && at in h[b].items && |h[b].items[at]| == 1 && h[b].items[at][0].At?
    ensures ContainerEdges(h, b, c, at) == [Edge(h[b].items[at][0], ItemVia(c, at, 0))]
  {
    var rs := h[b].items[at];
    assert ItemEdges(rs, 1, c, at) == ItemEdges(rs, 0, c, at) + [Edge(rs[0], ItemVia(c, at, 0))];
  }

  lemma {:induction false} ItemIsEdge(h: Heap, b: nat, cls: ClassInfo, at0: int, c: Container, at: int)
    requires b in h && (c, at) in Containers(cls, at0) && at in h[b].items && |h[b].items[at]| == 1
        && h[b].items[at][0].At?
    ensures Edge(h[b].items[at][0], ItemVia(c, at, 0)) in ChainEdges(h, b, cls, at0, false)
  {
    hide TableEdges, ContainerEdges, ItemVia, Containers, ChainEdges;
    var e := Edge(h[b].items[at][0], ItemVia(c, at, 0));
    ContainersSplit(cls, at0, c, at);
    ChainSplit(h, b, cls, at0, e);
    if (c, at) == (cls.container, at0) && !c.NoContainer? {
      OneItemEdges(h, b, c, at);
    } else {
      ItemIsEdge(h, b, cls.parent.value, at0 + cls.offsetToParent, c, at);
    }
  }

  lemma ContainersSplit(cls: ClassInfo, at0: int, c: Container, at: int)
    requires (c, at) in Containers(cls, at0)
    ensures (!c.NoContainer? && (c, at) == (cls.container, at0))
            || (cls.parent.Some? && (c, at) in Containers(cls.parent.value, at0 + cls.offsetToParent))
  {
    var own := if cls.container.NoContainer? then [] else [(cls.container, at0)];
    var rest := if cls.parent.Some? then Containers(cls.parent.value, at0 + cls.offsetToParent) else [];
    assert Containers(cls, at0) == own + rest;
  }

  lemma ChainSplit(h: Heap, b: nat, cls: ClassInfo, at0: int, e: Edge)
    requires b in h
    ensures e in ContainerEdges(h, b, cls.container, at0) ==> e in ChainEdges(h, b, cls, at0, false)
    ensures cls.parent.Some? && e in ChainEdges(h, b, cls.parent.value, at0 + cls.offsetToParent, false) ==>
              e in ChainEdges(h, b, cls, at0, false)
  {
    hide TableEdges, ContainerEdges;
  }

  /** A heap with the same objects and good keys in the dicts of one of them, whatever the containers hold. */
  ghost predicate Variant(h: Heap, k: Heap, r: Ref)
    requires IsObject(h, r)
  {
    && k.Keys == h.Keys && (forall b | b in h :: k[b].classes == h[b].classes)
    && GraphOk(k) && IsObject(k, r) && DictsOk(k, r)
  }

  /** The items in the container at `at` replay, whatever the containers hold. */
  ghost predicate ItemsReplay(h: Heap, r: Ref, at: int)
    requires IsObject(h, r)
  {
    forall k, e: Edge | Variant(h, k, r) && e in E(k, r) && !e.via.Attribute? && e.via.at == at :: Replays(k, Leg(r, e))
  }

  function OneItem(h: Heap, r: Ref, at: int): Heap
    requires IsObject(h, r)
  {
    var places := set p | p in Containers(ClassOf(h, r), r.off) :: p.1;
    h[r.block := h[r.block].(items := map[at := [r]], keys := map o | o in places :: if o == at then ["k"] else [])]
  }

  lemma OneItemVariant(h: Heap, r: Ref, at: int)
    requires GraphOk(h) && IsObject(h, r)
    ensures Variant(h, OneItem(h, r, at), r)
  {
    hide Fields, Containers, GraphOk, EmbeddedOk;
    var k := OneItem(h, r, at);
    SameObjects(h, k, r);
    forall o | (DictContainer, o) in Containers(ClassOf(k, r), r.off) && o in k[r.block].items
      ensures GoodKeys(k, r.block, o)
    {
      assert (DictContainer, o).1 == o;
    }
  }

  /** A graph stays one when the items of one object are replaced by that object itself. */
  lemma SameObjects(h: Heap, k: Heap, r: Ref)
    requires GraphOk(h) && IsObject(h, r) && k.Keys == h.Keys
    requires forall b | b in h :: k[b].classes == h[b].classes && k[b].ptrs == h[b].ptrs
    requires forall b | b in h && b != r.block :: k[b] == h[b]
    requires forall o, i | o in k[r.block].items && 0 <= i < |k[r.block].items[o]| :: k[r.block].items[o][i] == r
    ensures GraphOk(k)
  {
    hide Fields;
    assert forall x :: IsObject(k, x) <==> IsObject(h, x);
    forall x, f | IsObject(k, x) && f in Fields(ClassOf(k, x), x.off)
        && f.entry.varType.Root? ensures EmbeddedOk(k, x.block, f) {
      assert EmbeddedOk(h, x.block, f);
    }
  }

  /**
   Exactly when recorded steps to the items of a container can be trusted: when it is the one that
   a replay looks in. A list in the same class chain as a dict elsewhere, or behind another list, is not.
   */
  lemma ItemsReplayExactly(h: Heap, r: Ref, c: Container, at: int)
    requires GraphOk(h) && IsObject(h, r) && (c, at) in Containers(ClassOf(h, r), r.off)
    ensures ItemsReplay(h, r, at) <==> Accessed(ClassOf(h, r), r.off) == Some(at)
  {
    hide GraphOk, DictsOk, Edges, GetNextObject, GetRouteStep;
    var cls := ClassOf(h, r);
    if Accessed(cls, r.off) == Some(at) {
      forall k, e: Edge | Variant(h, k, r) && e in E(k, r) && !e.via.Attribute?
          && e.via.at == at ensures Replays(k, Leg(r, e)) {
        AccessedIsGood(k, Leg(r, e));
        StepReplays(k, Leg(r, e));
      }
    } else {
      NotReplayed(h, r, c, at);
    }
  }

  lemma NotReplayed(h: Heap, r: Ref, c: Container, at: int)
    requires GraphOk(h) && IsObject(h, r) && (c, at) in Containers(ClassOf(h, r), r.off)
    requires Accessed(ClassOf(h, r), r.off) != Some(at)
    ensures !ItemsReplay(h, r, at)
  {
    hide ChainEdges, CastTo, Variant;
    var cls := ClassOf(h, r);
    var k := OneItem(h, r, at);
    OneItemVariant(h, r, at);
    var e := Edge(r, ItemVia(c, at, 0));
    IsContainer(cls, r.off, c, at);
    ItemIsEdge(k, r.block, cls, r.off, c, at);
    CastIsContainer(ListContainer, cls, r.off);
    CastIsContainer(DictContainer, cls, r.off);
    assert e in E(k, r);
    assert !Replays(k, Leg(r, e));
  }

  /** Where a class chain has a dict and another container, an item of the other one may have no key to record. */
  lemma NotRecorded(h: Heap, r: Ref, c: Container, at: int)
    requires GraphOk(h) && IsObject(h, r) && (c, at) in Containers(ClassOf(h, r), r.off)
    requires CastTo(DictContainer, ClassOf(h, r), r.off).Some?
    requires CastTo(DictContainer, ClassOf(h, r), r.off).value != at
    ensures var k := OneItem(h, r, at); var e := Edge(r, ItemVia(c, at, 0));
            Variant(h, k, r) && e in E(k, r) && !Recordable(k, Leg(r, e))
  {
    hide ChainEdges, CastTo, Variant;
    var cls := ClassOf(h, r);
    OneItemVariant(h, r, at);
    IsContainer(cls, r.off, c, at);
    ItemIsEdge(OneItem(h, r, at), r.block, cls, r.off, c, at);
    CastIsContainer(DictContainer, cls, r.off);
  }

  lemma {:induction false} IsContainer(cls: ClassInfo, at0: int, c: Container, at: int)
    requires (c, at) in Containers(cls, at0)
    ensures c != NoContainer
  {
    hide Containers;
    ContainersSplit(cls, at0, c, at);
    if cls.parent.Some? && (c, at) in Containers(cls.parent.value, at0 + cls.offsetToParent) {
      IsContainer(cls.parent.value, at0 + cls.offsetToParent, c, at);
    }
  }

  /** With good keys in the dicts, an item of the accessed container can be replayed. */
  lemma AccessedIsGood(h: Heap, leg: Leg)
    requires IsObject(h, leg.parent) && leg.edge in E(h, leg.parent) && DictsOk(h, leg.parent)
    requires !leg.edge.via.Attribute?
    requires Accessed(ClassOf(h, leg.parent), leg.parent.off) == Some(leg.edge.via.at)
    ensures LegReplayable(h, leg)
  {
    hide ChainEdges, Containers, CastTo, GoodKeys;
    var cls, off := ClassOf(h, leg.parent), leg.parent.off;
    ChainNames(h, leg.parent.block, cls, off, false, leg.edge);
    CastIsContainer(DictContainer, cls, off);
  }

  /** Every edge of a replayable object can be replayed. */
  lemma EdgesReplayable(h: Heap, leg: Leg)
    requires IsObject(h, leg.parent) && leg.edge in E(h, leg.parent) && Replayable(h, leg.parent)
    ensures LegReplayable(h, leg)
  {
    hide ChainEdges, Containers, CastTo, GoodKeys, Accessed, DictsOk;
    var cls, off := ClassOf(h, leg.parent), leg.parent.off;
    ChainNames(h, leg.parent.block, cls, off, false, leg.edge);
    if !leg.edge.via.Attribute? { AccessedIsGood(h, leg); }
  }

  /** The steps recorded for a route; none if one of its legs has none. */
  function StepsOf(h: Heap, r: seq<Leg>): Option<seq<RouteStep>>
    requires forall i | 0 <= i < |r| :: IsObject(h, r[i].parent)
  {
    if r == [] then Some([]) else Preceded(GetRouteStep(h, r[0]), StepsOf(h, r[1..]))
  }

  function Preceded(step: Option<RouteStep>, steps: Option<seq<RouteStep>>): Option<seq<RouteStep>> {
    if step.Some? && steps.Some? then Some([step.value] + steps.value) else None
  }

  lemma StepRecorded(h: Heap, leg: Leg)
    requires IsObject(h, leg.parent)
    ensures GetRouteStep(h, leg).Some? <==> Recordable(h, leg)
  {
  }

  /** The steps of a route can be recorded exactly when each of its legs can. */
  lemma {:induction false} StepsRecorded(h: Heap, r: seq<Leg>)
    requires forall i | 0 <= i < |r| :: IsObject(h, r[i].parent)
    ensures StepsOf(h, r).Some? <==> forall i | 0 <= i < |r| :: Recordable(h, r[i])
  {
    hide Recordable, GetRouteStep;
    if r != [] {
      var rest := r[1..];
      StepRecorded(h, r[0]);
      StepsRecorded(h, rest);
      assert forall i | 0 <= i < |rest| :: rest[i] == r[i + 1];
      if forall i | 0 <= i < |rest| :: Recordable(h, rest[i]) {
        forall i | 0 < i < |r| ensures Recordable(h, r[i]) { assert r[i] == rest[i - 1]; }
      }
    }
  }

  /** The legs of a route: each from where the one before arrived. */
  ghost predicate Legs(h: Heap, r: seq<Leg>) {
    && (forall i | 0 <= i < |r| :: IsObject(h, r[i].parent) && r[i].edge in E(h, r[i].parent))
    && (forall i | 0 <= i < |r| - 1 :: r[i].edge.child == r[i + 1].parent)
  }

  ghost predicate LegsReplayable(h: Heap, r: seq<Leg>) {
    forall i | 0 <= i < |r| && IsObject(h, r[i].parent) :: LegReplayable(h, r[i])
  }

  /** Replaying the steps of a route in order from its start arrives at its end. */
  lemma {:induction false} RouteReplays(h: Heap, r: seq<Leg>)
    requires r != [] && Legs(h, r) && LegsReplayable(h, r)
    ensures StepsOf(h, r).Some? && Replay(h, r[0].parent, StepsOf(h, r).value) == r[|r| - 1].edge.child
  {
    hide GetNextObject, GetRouteStep, LegReplayable, Edges;
    assert Replays(h, r[0]) by { StepReplays(h, r[0]); }
    var rest := r[1..];
    if rest == [] {
      assert StepsOf(h, rest) == Some([]);
    } else {
      assert forall i | 0 <= i < |rest| :: rest[i] == r[i + 1];
      RouteReplays(h, rest);
    }
    assert StepsOf(h, r) == Preceded(GetRouteStep(h, r[0]), StepsOf(h, rest));
    assert StepsOf(h, r).value[1..] == StepsOf(h, rest).value;
  }

  /** Every object that a route passes can be reached from its start. */
  lemma {:induction false} PassedReached(h: Heap, from: Ref, r: seq<Leg>, i: nat)
    requires Legs(h, r) && i < |r| && r[0].parent == from
    ensures ReachesIn(h, Everything, from, r[i].parent, i)
  {
    hide Search.Step, ReachesIn, Edges;
    if i == 0 {
      ReachesNone(h, Everything, from);
    } else {
      PassedReached(h, from, r, i - 1);
      StepIsLink(h, r[i - 1].parent, r[i].parent);
      LegIsLink(h, r[i - 1]);
      ReachesOneMore(h, Everything, from, r[i - 1].parent, r[i].parent, i - 1);
    }
  }

  lemma LegIsLink(h: Heap, leg: Leg)
    requires IsObject(h, leg.parent) && leg.edge in E(h, leg.parent)
    ensures Linked(h, leg.parent, leg.edge.child)
  {
  }

  /** Every object reachable from `from` can be replayed. */
  ghost predicate AllReplayable(h: Heap, from: Ref) {
    forall x | IsObject(h, x) && Reaches(h, Everything, from, x) :: Replayable(h, x)
  }

  lemma PassedReplayable(h: Heap, from: Ref, r: seq<Leg>)
    requires Legs(h, r) && r != [] && r[0].parent == from && AllReplayable(h, from)
    ensures LegsReplayable(h, r)
  {
    hide LegReplayable, Replayable, Edges;
    forall i | 0 <= i < |r| && IsObject(h, r[i].parent) ensures LegReplayable(h, r[i]) {
      PassedReached(h, from, r, i);
      assert Reaches(h, Everything, from, r[i].parent);
      EdgesReplayable(h, r[i]);
    }
  }

  // ---------- FindFirstRoute ----------

  lemma StepIsLink(h: Heap, a: Ref, b: Ref)
    ensures Search.Step(h, Everything, a, b) <==> Linked(h, a, b)
  {
    if IsObject(h, a) {
      EverythingEdges(h, a);
      if Search.Step(h, Everything, a, b) {
        var e :| e in Everything.Edges(h, a) && e.child == b;
        var k :| 0 <= k < |E(h, a)| && E(h, a)[k] == e;
      }
      if Linked(h, a, b) {
        var k :| 0 <= k < |E(h, a)| && E(h, a)[k].child == b;
        assert E(h, a)[k] in Everything.Edges(h, a);
      }
    }
  }

  lemma LinkIsHop(h: Heap, a: Ref, b: Ref) returns (p: Hop)
    requires Linked(h, a, b)
    ensures IsHop(h, p) && p.from == a && HopChild(h, p) == b
  {
    var k :| 0 <= k < |E(h, a)| && E(h, a)[k].child == b;
    p := Hop(a, k);
  }

  /** A path that meets the target has a first place where it does. */
  lemma {:induction false} FirstMeeting(h: Heap, from: Ref, to: Ref, p: seq<Ref>) returns (q: Hop)
    requires GraphOk(h) && IsPath(h, Everything, p) && p[0] == from && from != to && p[|p| - 1] == to
        && IsObject(h, from)
    ensures LeadsTo(h, from, to, q)
    decreases |p|
  {
    hide GraphOk, Search.Step, LeadsTo;
    if i :| 0 <= i < |p| - 1 && p[i] == to {
      PrefixIsPath(h, p, i + 1);
      q := FirstMeeting(h, from, to, p[..i + 1]);
    } else {
      q := LastHop(h, from, to, p);
    }
  }

  lemma PrefixIsPath(h: Heap, p: seq<Ref>, n: nat)
    requires IsPath(h, Everything, p) && 0 < n <= |p|
    ensures IsPath(h, Everything, p[..n])
  {
    hide Search.Step;
    forall i | 0 <= i < n - 1 ensures Search.Step(h, Everything, p[..n][i], p[..n][i + 1]) {
      assert Search.Step(h, Everything, p[i], p[i + 1]);
    }
  }

  lemma LastHop(h: Heap, from: Ref, to: Ref, p: seq<Ref>) returns (q: Hop)
    requires GraphOk(h) && IsPath(h, Everything, p) && p[0] == from && from != to && p[|p| - 1] == to
        && IsObject(h, from)
    requires forall i | 0 <= i < |p| - 1 :: p[i] != to
    ensures LeadsTo(h, from, to, q)
  {
    hide GraphOk, Search.Step, IsObject, Linked;
    var n := |p| - 2;
    var r := p[..|p| - 1];
    forall i | 0 <= i < |p| - 1 ensures IsObject(h, p[i]) && Linked(h, p[i], p[i + 1]) {
      assert Search.Step(h, Everything, p[i], p[i + 1]);
      StepFacts(h, p[i], p[i + 1]);
    }
    forall i | 0 <= i < |r| - 1 ensures Linked(h, r[i], r[i + 1]) {
      assert Linked(h, p[i], p[i + 1]);
    }
    assert AvoidingPath(h, to, r);
    assert Linked(h, p[n], p[n + 1]);
    q := LinkIsHop(h, p[n], to);
    assert Avoiding(h, from, to, q.from);
  }

  lemma StepFacts(h: Heap, x: Ref, y: Ref)
    requires Search.Step(h, Everything, x, y)
    ensures IsObject(h, x) && Linked(h, x, y)
  {
    StepIsLink(h, x, y);
  }

  lemma LeadsToReaches(h: Heap, from: Ref, to: Ref, p: Hop)
    requires LeadsTo(h, from, to, p)
    ensures Reaches(h, Everything, from, to)
  {
    hide Search.Step, Linked;
    var q :| AvoidingPath(h, to, q) && q[0] == from && q[|q| - 1] == p.from;
    var r := q + [to];
    HopIsLink(h, p);
    forall i | 0 <= i < |r| - 1 ensures Search.Step(h, Everything, r[i], r[i + 1]) {
      StepIsLink(h, r[i], r[i + 1]);
      if i < |q| - 1 { assert Linked(h, q[i], q[i + 1]); }
    }
    assert IsPath(h, Everything, r);
    assert ReachesIn(h, Everything, from, to, |q|);
  }

  lemma HopIsLink(h: Heap, p: Hop)
    requires IsHop(h, p)
    ensures Linked(h, p.from, HopChild(h, p))
  {
    assert E(h, p.from)[p.index].child == HopChild(h, p);
  }

  /** The target can be reached exactly when some hop leads to it. */
  lemma ReachesByHop(h: Heap, from: Ref, to: Ref)
    requires GraphOk(h) && IsObject(h, from) && from != to
    ensures Reaches(h, Everything, from, to) <==> exists p :: LeadsTo(h, from, to, p)
  {
    if Reaches(h, Everything, from, to) {
      var n: nat :| ReachesIn(h, Everything, from, to, n);
      var p :| IsPath(h, Everything, p) && |p| == n + 1 && p[0] == from && p[n] == to;
      var q := FirstMeeting(h, from, to, p);
    }
    forall p | LeadsTo(h, from, to, p) ensures Reaches(h, Everything, from, to) {
      LeadsToReaches(h, from, to, p);
    }
  }

  /** Records the steps of a route, the last leg first, each put in front of the others. */
  method RecordSteps(h: Heap, r: seq<Leg>) returns (steps: Option<seq<RouteStep>>)
    requires forall i | 0 <= i < |r| :: IsObject(h, r[i].parent)
    ensures steps == StepsOf(h, r)
  {
    hide GetRouteStep;
    steps := Some([]);
    var i := |r|;
    while i > 0
      invariant 0 <= i <= |r| && steps.Some?
      invariant steps == StepsOf(h, r[i..])
    {
      i := i - 1;
      assert r[i..][1..] == r[i + 1..];
      var step := GetRouteStep(h, r[i]);
      if step.None? {
        PartUnrecorded(h, r, i);
        return None;
      }
      steps := Some([step.value] + steps.value);
    }
    assert r[0..] == r;
  }

  lemma {:induction false} PartUnrecorded(h: Heap, r: seq<Leg>, i: nat)
    requires i < |r| && forall j | 0 <= j < |r| :: IsObject(h, r[j].parent)
    requires GetRouteStep(h, r[i]).None?
    ensures StepsOf(h, r) == None
  {
    hide GetRouteStep;
    if i > 0 {
      assert r[1..][i - 1] == r[i];
      PartUnrecorded(h, r[1..], i - 1);
    }
  }

  lemma {:induction false} ContainersListed(h: Heap, b: nat, cls: ClassInfo, at0: int)
    requires b in h
    requires forall at | (DictContainer, at) in Containers(cls, at0) && at in h[b].items :: GoodKeys(h, b, at)
    ensures ChainListed(h, b, cls, at0)
  {
    if cls.container.DictContainer? { assert Containers(cls, at0)[0] == (DictContainer, at0); }
    if cls.parent.Some? { ContainersListed(h, b, cls.parent.value, at0 + cls.offsetToParent); }
  }

  lemma AvoidingReaches(h: Heap, from: Ref, to: Ref, x: Ref)
    requires Avoiding(h, from, to, x)
    ensures Reaches(h, Everything, from, x)
  {
    hide Search.Step, Linked;
    var q :| AvoidingPath(h, to, q) && q[0] == from && q[|q| - 1] == x;
    forall i | 0 <= i < |q| - 1 ensures Search.Step(h, Everything, q[i], q[i + 1]) {
      StepIsLink(h, q[i], q[i + 1]);
    }
    assert IsPath(h, Everything, q);
    assert ReachesIn(h, Everything, from, x, |q| - 1);
  }

  /** If everything can be replayed, the enumeration does not get stuck. */
  lemma ReplayableNotStuck(h: Heap, from: Ref, to: Ref)
    requires AllReplayable(h, from)
    ensures forall x :: !Stuck(h, from, to, x)
  {
    hide Reaches, Avoiding, Containers, ChainListed, GoodKeys, AllAccessed;
    forall x | Stuck(h, from, to, x) ensures false {
      AvoidingReaches(h, from, to, x);
      ContainersListed(h, x.block, ClassOf(h, x), x.off);
    }
  }

  ghost predicate LegsRecordable(h: Heap, r: seq<Leg>) {
    forall i | 0 <= i < |r| && IsObject(h, r[i].parent) :: Recordable(h, r[i])
  }

  /**
   One route, if there is any: found exactly when the target can be reached. The recorded steps are
   those of the route's legs, and lead to the target if each leg can be replayed; which is so if
   every reachable object has one container, a list or a dict with good keys.

   Unless the enumeration gets stuck, the program is defined exactly if every leg of the route that is
   an item of an object with a dict has an index below the number of that dict's keys.
   */
  method FindFirstRoute(h: Heap, hash: Ref -> nat, from: Ref, to: Ref)
    returns (found: bool, result: seq<RouteStep>, defined: bool, ghost route: seq<Leg>)
    requires GraphOk(h) && (from != Null ==> IsObject(h, from))
    ensures route == [] || IsRoute(h, from, to, route)
    ensures !defined ==> !LegsRecordable(h, route) || exists x :: Stuck(h, from, to, x)
    ensures defined ==> LegsRecordable(h, route)
    ensures defined ==> (found <==> from != Null && to != Null && Reaches(h, Everything, from, to))
    ensures defined ==> (route != [] <==> found && from != to)
    ensures forall i | 0 <= i < |route| :: IsObject(h, route[i].parent)
    ensures defined ==> StepsOf(h, route) == Some(result)
    ensures defined && found && LegsReplayable(h, route) ==> Replay(h, from, result) == to
    ensures AllReplayable(h, from) ==> defined && (found ==> Replay(h, from, result) == to)
  {
    hide Reaches, LeadsTo, GraphOk, Replayable, GetRouteStep, LegReplayable, AllReplayable, Edges, Recordable, Stuck;
    result, route, defined := [], [], true;
    if from == Null || to == Null {
      return false, [], true, [];
    }
    if from == to {
      assert Reaches(h, Everything, from, to) by { SelfReached(h, from); }
      return true, [], true, [];
    }
    ReachesByHop(h, from, to);
    if AllReplayable(h, from) { ReplayableNotStuck(h, from, to); }
    var routes;
    ghost var calls;
    routes, calls, defined := EnumerateRoutes(h, hash, from, to, false);
    if !defined {
      return false, [], false, [];
    }
    found := |routes| > 0;
    if found {
      route := routes[0];
      assert IsRoute(h, from, to, routes[0]);
      assert calls[0] in calls;
      var steps := RecordSteps(h, routes[0]);
      StepsRecorded(h, route);
      assert Legs(h, route);
      if AllReplayable(h, from) { PassedReplayable(h, from, route); }
      if LegsReplayable(h, route) { RouteReplays(h, route); }
      if steps.None? {
        return true, [], false, route;
      }
      result := steps.value;
    }
  }

  lemma SelfReached(h: Heap, a: Ref)
    ensures Reaches(h, Everything, a, a)
  {
    ReachesNone(h, Everything, a);
  }
}

/** What a class contributes to a copy: the persistent cells of an object, embedded objects included. */
module Layout {
  import opened Basics
  import opened ObjectModel

  datatype Leaf =
    | ValueLeaf(off: int)
    | PtrLeaf(off: int)
    | ListLeaf(off: int)
    | DictLeaf(off: int)
    | ClassLeaf(off: int, cls: ClassInfo)
  {
    predicate IsContainer() {
      ListLeaf? || DictLeaf?
    }
  }

  function EntryLeaves(m: VarEntry, at: int): seq<Leaf>
    decreases m, 0
  {
    if !m.persist then [] else
      match m.varType
      case Plain => [ValueLeaf(at + m.offset)]
      case RootPtr => [PtrLeaf(at + m.offset)]
      case Root(c) => ObjectLeaves(c, at + m.offset)
  }

  function TableLeaves(ms: seq<VarEntry>, at: int): seq<Leaf>
    decreases ms, 0
  {
    if ms == [] then [] else EntryLeaves(ms[0], at) + TableLeaves(ms[1..], at)
  }

  function ChainLeaves(cls: ClassInfo, at: int): seq<Leaf>
    decreases cls, 0
  {
    TableLeaves(cls.members, at) +
    (if cls.parent.Some? then ChainLeaves(cls.parent.value, at + cls.offsetToParent) else [])
  }

  /** The container that a query for the custom assignment interface finds: the first in the chain. */
  function CustomLeaves(cls: ClassInfo, at: int): (r: seq<Leaf>)
    ensures |r| <= 1 && (r != [] ==> r[0].IsContainer())
  {
    match cls.container
    case ListContainer => [ListLeaf(at)]
    case DictContainer => [DictLeaf(at)]
    case NoContainer =>
      if cls.parent.Some? then CustomLeaves(cls.parent.value, at + cls.offsetToParent) else []
  }

  function ObjectLeaves(cls: ClassInfo, at: int): seq<Leaf>
    decreases cls, 1
  {
    [ClassLeaf(at, cls)] + ChainLeaves(cls, at) + CustomLeaves(cls, at)
  }

  predicate LeafPresent(b: Block, l: Leaf) {
    match l
    case ValueLeaf(o) => o in b.vals
    case PtrLeaf(o) => o in b.ptrs
    case ListLeaf(o) => o in b.items && o in b.keys
    case DictLeaf(o) => o in b.items && o in b.keys
    case ClassLeaf(o, c) => o in b.classes && b.classes[o] == c
  }

  ghost predicate LeavesPresent(b: Block, ls: seq<Leaf>) {
    forall l | l in ls :: LeafPresent(b, l)
  }

  /** No two containers share an address: a class that exposes each of its containers once. */
  ghost predicate DistinctContainers(ls: seq<Leaf>) {
    forall i, j | 0 <= i < j < |ls| && ls[i].IsContainer() && ls[j].IsContainer() :: ls[i].off != ls[j].off
  }

  ghost predicate Touches(ls: seq<Leaf>, o: int) {
    ListLeaf(o) in ls || DictLeaf(o) in ls
  }

  ghost predicate BlockOk(b: Block) {
    0 in b.classes && LeavesPresent(b, ObjectLeaves(b.classes[0], 0))
  }

  /** The heap objects a block refers to through a leaf. */
  ghost predicate LeafTarget(b: Block, l: Leaf, r: Ref) {
    match l
    case PtrLeaf(o) => r.At? && o in b.ptrs && b.ptrs[o] == r
    case ListLeaf(o) => o in b.items && r in b.items[o]
    case DictLeaf(o) => o in b.items && r in b.items[o]
    case _ => false
  }

  ghost predicate SourceBlockOk(h: Heap, b: Block) {
    && BlockOk(b)
    && (forall l, r | l in ObjectLeaves(b.classes[0], 0) && LeafTarget(b, l, r) :: IsHeapObject(h, r))
    && (forall o | DictLeaf(o) in ObjectLeaves(b.classes[0], 0) :: |b.keys[o]| == |b.items[o]|)
    && (forall o | o in b.ptrs && b.ptrs[o].At? :: b.ptrs[o].block in h)
    && (forall o, r | o in b.items && r in b.items[o] && r.At? :: r.block in h)
  }

  /** A heap the copier may be started on: laid out as its classes say, with all references valid. */
  ghost predicate SourceOk(h: Heap) {
    forall b | b in h :: SourceBlockOk(h, h[b])
  }

  ghost predicate Edge(h: Heap, a: Ref, b: Ref) {
    IsHeapObject(h, a) && exists l :: l in ObjectLeaves(ClassOf(h, a), 0) && LeafTarget(h[a.block], l, b)
  }

  ghost predicate IsPath(h: Heap, p: seq<Ref>) {
    p != [] && forall i | 0 <= i < |p| - 1 :: Edge(h, p[i], p[i + 1])
  }

  ghost predicate Reaches(h: Heap, a: Ref, b: Ref) {
    exists p :: IsPath(h, p) && p[0] == a && p[|p| - 1] == b
  }

  lemma ReachesSelf(h: Heap, a: Ref)
    ensures Reaches(h, a, a)
  {
    assert IsPath(h, [a]);
  }

  lemma ReachesStep(h: Heap, a: Ref, b: Ref, c: Ref)
    requires Reaches(h, a, b) && Edge(h, b, c)
    ensures Reaches(h, a, c)
  {
    var p :| IsPath(h, p) && p[0] == a && p[|p| - 1] == b;
    var q := p + [c];
    assert IsPath(h, q) by {
      forall i | 0 <= i < |q| - 1 ensures Edge(h, q[i], q[i + 1]) {
        if i < |p| - 1 { assert Edge(h, p[i], p[i + 1]); }
      }
    }
  }
}

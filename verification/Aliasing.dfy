/**
 A class that exposes one container twice: exactly the classes whose clones can be lost.

 The second assignment of such a container empties it first, and the clones that were just stored
 there may have no other lock.
 */
module Aliasing {
  import opened Basics
  import opened ObjectModel
  import opened Layout
  import opened References
  import opened CloneInvariant
  import opened CloneProgress
  import opened CloneSteps
  import opened CloneContents
  import opened CloneTheorem
  import opened CopierModel

  const PLAIN := ClassInfo(0, [], NoContainer, 0, None)
  const OWNER := At(0, 0)
  const ITEM := At(1, 0)

  /** An object of class `cls` whose container at `o` holds one plain object, and that object. */
  function Filled(cls: ClassInfo, o: int): Heap {
    var blk := NewBlock(cls);
    map[0 := blk.(items := blk.items[o := [ITEM]], keys := blk.keys[o := ["item"]]), 1 := NewBlock(PLAIN)]
  }

  predicate Shares(ls: seq<Leaf>, i: nat, j: nat) {
    i < j < |ls| && ls[i].IsContainer() && ls[j].IsContainer() && ls[i].off == ls[j].off
  }

  lemma DistinctUnlessShared(ls: seq<Leaf>)
    ensures DistinctContainers(ls) <==> forall i: nat, j: nat :: !Shares(ls, i, j)
  {
    if !DistinctContainers(ls) {
      var i, j :| 0 <= i < j < |ls| && ls[i].IsContainer() && ls[j].IsContainer() && ls[i].off == ls[j].off;
      assert Shares(ls, i, j);
    }
  }

  lemma PlainLeaves()
    ensures ObjectLeaves(PLAIN, 0) == [ClassLeaf(0, PLAIN)]
  {
    assert TableLeaves([], 0) == [];
  }

  lemma PlainPresent()
    ensures LeavesPresent(NewBlock(PLAIN), ObjectLeaves(PLAIN, 0))
    ensures 0 in NewBlock(PLAIN).classes && NewBlock(PLAIN).classes[0] == PLAIN
  {
    PlainLeaves();
    var b := Block(map[0 := PLAIN], map[], map[], map[], map[], 1);
    assert LeavesPresent(b, ObjectLeaves(PLAIN, 0));
    NewBlockPresent(b, PLAIN);
  }

  lemma NewBlockCells(cls: ClassInfo)
    ensures forall o | o in NewBlock(cls).ptrs :: NewBlock(cls).ptrs[o] == Null
    ensures forall o | o in NewBlock(cls).items :: NewBlock(cls).items[o] == []
    ensures forall o | o in NewBlock(cls).keys :: NewBlock(cls).keys[o] == []
    ensures NewBlock(cls).items.Keys == NewBlock(cls).keys.Keys
  {
    hide ObjectLeaves, ClassMap;
  }

  /** The source is laid out as its classes say, and holds one reference. */
  lemma FilledOk(b: Block, cls: ClassInfo, o: int)
    requires LeavesPresent(b, ObjectLeaves(cls, 0))
    ensures SourceOk(Filled(cls, o)) && IsHeapObject(Filled(cls, o), OWNER) && ClassOf(Filled(cls, o), OWNER) == cls
    ensures IsHeapObject(Filled(cls, o), ITEM) && ClassOf(Filled(cls, o), ITEM) == PLAIN
  {
    hide NewBlock, ObjectLeaves;
    NewBlockPresent(b, cls);
    NewBlockCells(cls);
    PlainPresent();
    NewBlockCells(PLAIN);
    var h := Filled(cls, o);
    forall l | l in ObjectLeaves(cls, 0) ensures LeafPresent(h[0], l) {
      assert LeafPresent(NewBlock(cls), l);
    }
    FilledBlockOk(h, h[0], o);
    FilledBlockOk(h, h[1], o);
  }

  /** A block that refers to the item from the list or dict at `o` at most, under one key. */
  lemma FilledBlockOk(h: Heap, b: Block, o: int)
    requires BlockOk(b) && IsHeapObject(h, ITEM)
    requires forall q | q in b.ptrs :: b.ptrs[q] == Null
    requires forall q | q in b.items :: b.items[q] == [] || (q == o && b.items[q] == [ITEM])
    requires forall q | q in b.items && q in b.keys :: |b.keys[q]| == |b.items[q]|
    ensures SourceBlockOk(h, b)
  {
    hide ObjectLeaves;
    forall q | DictLeaf(q) in ObjectLeaves(b.classes[0], 0) ensures |b.keys[q]| == |b.items[q]| {
      assert LeafPresent(b, DictLeaf(q));
    }
  }

  lemma CloneOrigin(h0: Heap, scope: set<Ref>, s: State, c: nat)
    requires Inv(h0, scope, s) && s.into == Nothing && c in s.heap && c !in h0
    ensures c in s.origin && IsHeapObject(h0, s.origin[c])
    ensures s.origin[c] in s.memo && s.memo[s.origin[c]] == At(c, 0)
  {
    hide ObjectLeaves, Tidy, Accounted, DoneCloned, ClonesTidy, CloneBlockOk;
    assert CloneOk(h0, s.origin, s.into, c, s.heap[c]);
    assert MemoOk(h0, scope, s);
  }

  /** The blocks of a state of the clone: the two sources and at most their clones. */
  lemma Blocks(cls: ClassInfo, o: int, scope: set<Ref>, s: State, db: nat, x: nat, c: nat)
    requires Inv(Filled(cls, o), scope, s) && s.into == Nothing && c in s.heap
    requires OWNER in s.memo && s.memo[OWNER] == At(db, 0) && ITEM in s.memo && s.memo[ITEM] == At(x, 0)
    ensures c == 0 || c == 1 || c == db || c == x
  {
    hide NewBlock, Inv;
    if c != 0 && c != 1 { CloneOrigin(Filled(cls, o), scope, s, c); }
  }

  /** Both sources are as they were; the clone of the item refers to nothing. */
  lemma ItemClone(cls: ClassInfo, o: int, scope: set<Ref>, s: State, x: nat)
    requires Inv(Filled(cls, o), scope, s) && s.into == Nothing && ITEM in s.memo && s.memo[ITEM] == At(x, 0)
    requires IsHeapObject(Filled(cls, o), ITEM) && ClassOf(Filled(cls, o), ITEM) == PLAIN
    ensures x in s.heap && x != 0 && x != 1 && x in s.origin && s.origin[x] == ITEM
    ensures 0 in s.heap && 1 in s.heap && s.heap[0] == Filled(cls, o)[0] && s.heap[1] == Filled(cls, o)[1]
    ensures forall q | q in s.heap[x].ptrs :: s.heap[x].ptrs[q] == Null
    ensures forall q | q in s.heap[x].items :: s.heap[x].items[q] == []
  {
    hide NewBlock, ObjectLeaves, Accounted, Cloned, CloneOk;
    PlainLeaves();
    assert Tidy(PLAIN, s.heap[x]);
  }

  /** The clone of the owner refers to the item's clone from the container at `o` only. */
  lemma OwnerClone(cls: ClassInfo, o: int, m: map<Ref, Ref>, n: map<Ref, Ref>, e: Block, ls: seq<Leaf>, l: Leaf)
    requires BlockProgress(Filled(cls, o)[0], NewBlock(cls), e, m, n, ls)
    requires l in ls && l.IsContainer() && l.off == o
    ensures o in e.items && ITEM in n && e.items[o] == [n[ITEM]]
    ensures forall q | q in e.ptrs :: e.ptrs[q] == Null
    ensures forall q | q in e.items && q != o :: e.items[q] == []
  {
    hide NewBlock, MatchesKept;
    NewBlockCells(cls);
    var src := Filled(cls, o)[0];
    assert LeafMatches(src, e, n, l);
    assert Corresponds(n, src.items[o][0], e.items[o][0]);
    forall q | q in e.items && q != o ensures e.items[q] == [] {
      if ListLeaf(q) in ls {
        assert LeafMatches(src, e, n, ListLeaf(q));
      } else if DictLeaf(q) in ls {
        assert LeafMatches(src, e, n, DictLeaf(q));
      } else {
        assert !Touches(ls, q);
      }
    }
  }

  /** Heaps of which only one slot refers to `t`. */
  lemma OneHolder(h: Heap, x: Slot, t: Ref)
    requires forall s | Holds(h, s, t) :: s == x
    ensures InDegree(h, t) <= 1
  {
    forall s | s in Holders(h, t) ensures s in {x} { HoldersAre(h, t, s); }
    assert Holders(h, t) <= {x};
    SubsetSize(Holders(h, t), {x});
  }

  lemma {:induction false} SubsetSize<T>(a: set<T>, b: set<T>)
    requires a <= b
    ensures |a| <= |b|
  {
    if a != {} {
      var x :| x in a;
      SubsetSize(a - {x}, b - {x});
    }
  }

  /** Whatever the copier did in between, the second emptying of the container destroys the clone. */
  lemma EmptiedTwice(cls: ClassInfo, scope: set<Ref>, b: nat, s: State, i: nat, j: nat)
    requires var ls := ObjectLeaves(cls, 0); Shares(ls, i, j)
    requires var h := Filled(cls, ObjectLeaves(cls, 0)[j].off);
             && IsHeapObject(h, OWNER) && IsHeapObject(h, ITEM) && ClassOf(h, ITEM) == PLAIN && b !in h
             && MidCopy(h, scope, Created(Empty(h), OWNER, b, NewBlock(cls)), s, OWNER, b, ObjectLeaves(cls, 0)[..j])
    ensures Loses(s, b, ObjectLeaves(cls, 0)[j].off)
  {
    hide NewBlock, ObjectLeaves, Inv, InDegree, BlockProgress, Times;
    var ls := ObjectLeaves(cls, 0);
    var o := ls[j].off;
    var h := Filled(cls, o);
    var s0 := Created(Empty(h), OWNER, b, NewBlock(cls));
    assert s0.heap[b] == NewBlock(cls);
    assert s.into == Nothing;
    assert ls[i] in ls[..j];
    OwnerClone(cls, o, s0.memo, s.memo, s.heap[b], ls[..j], ls[i]);
    assert OWNER in s0.memo && s.memo[OWNER] == At(b, 0);
    MemoFacts(h, scope, s, ITEM);
    var x := s.memo[ITEM].block;
    ItemClone(cls, o, scope, s, x);
    var t := At(x, 0);
    assert x != b;
    forall y | Holds(s.heap, y, t) ensures y == ItemSlot(b, o, 0) {
      Blocks(cls, o, scope, s, b, x, y.block);
      SourceHolds(cls, o, t);
    }
    OneHolder(s.heap, ItemSlot(b, o, 0), t);
    LocksOf(h, scope, s, x);
    assert s.pending == multiset{At(b, 0)};
    TimesOne(x);
    LosesFacts(s, b, o, x);
  }

  lemma TimesOne(x: nat)
    ensures Times([At(x, 0)], x) == 1
  {
  }

  lemma LocksOf(h0: Heap, scope: set<Ref>, s: State, x: nat)
    requires Inv(h0, scope, s) && x in s.heap && x !in h0
    ensures s.heap[x].locks == InDegree(s.heap, At(x, 0)) + s.pending[At(x, 0)]
  {
    hide InDegree;
  }

  /** The cells of the sources refer to the item and nothing else. */
  lemma SourceHolds(cls: ClassInfo, o: int, t: Ref)
    requires t != Null && t != ITEM
    ensures forall y: Slot | y.block == 0 || y.block == 1 :: !Holds(Filled(cls, o), y, t)
  {
    hide NewBlock;
    NewBlockCells(cls);
    NewBlockCells(PLAIN);
  }

  /** No run of the copier gets past the second emptying. */
  lemma SharedLoses(b: Block, cls: ClassInfo, i: nat, j: nat)
    requires LeavesPresent(b, ObjectLeaves(cls, 0)) && Shares(ObjectLeaves(cls, 0), i, j)
    ensures var h := Filled(cls, ObjectLeaves(cls, 0)[j].off);
            && SourceOk(h) && IsHeapObject(h, OWNER) && ClassOf(h, OWNER) == cls
            && !CreatedPassed(h, ReachSet(h, OWNER), Empty(h), OWNER)
  {
    hide NewBlock, ObjectLeaves, MidCopy, Loses, ReachSet, SourceOk;
    var ls := ObjectLeaves(cls, 0);
    var h := Filled(cls, ls[j].off);
    var scope := ReachSet(h, OWNER);
    FilledOk(b, cls, ls[j].off);
    if CreatedPassed(h, scope, Empty(h), OWNER) {
      var c: nat :| c !in h
                    && Passed(h, scope, Created(Empty(h), OWNER, c, NewBlock(ClassOf(h, OWNER))), OWNER, c, ls);
      var t := Created(Empty(h), OWNER, c, NewBlock(cls));
      assert PassedAt(h, scope, t, OWNER, c, ls, j);
      var s: State :| MidCopy(h, scope, t, s, OWNER, c, ls[..j]) && !Loses(s, c, ls[j].off);
      EmptiedTwice(cls, scope, c, s, i, j);
      assert false;
    }
  }

  lemma FilledDistinct(b: Block, cls: ClassInfo, o: int)
    requires LeavesPresent(b, ObjectLeaves(cls, 0)) && DistinctContainers(ObjectLeaves(cls, 0))
    ensures var h := Filled(cls, o); AllDistinct(h, ReachSet(h, OWNER))
  {
    hide NewBlock, ObjectLeaves, SourceOk, Reaches;
    FilledOk(b, cls, o);
    PlainLeaves();
  }

  /**
   Whether a clone can be lost is decided by the class alone: for each class that has an instance
   there is a source on which the copier destroys a clone, unless the class exposes each of its
   containers once; and then, by `CloneTo`, no source does.
   */
  method CloneWorst(b: Block) returns (source: Heap, destroyed: Option<Ref>)
    requires BlockOk(b)
    ensures SourceOk(source) && IsHeapObject(source, OWNER) && ClassOf(source, OWNER) == b.classes[0]
    ensures destroyed.Some? <==> !DistinctContainers(ObjectLeaves(b.classes[0], 0))
  {
    hide NewBlock, ObjectLeaves, SourceOk, CreatedPassed, AllDistinct, ReachSet;
    var cls := b.classes[0];
    var ls := ObjectLeaves(cls, 0);
    var o := 0;
    DistinctUnlessShared(ls);
    if i: nat, j: nat :| i < |ls| && j < |ls| && Shares(ls, i, j) {
      o := ls[j].off;
      SharedLoses(b, cls, i, j);
    } else {
      FilledDistinct(b, cls, o);
    }
    FilledOk(b, cls, o);
    source := Filled(cls, o);
    var heap, dest, pointers;
    heap, dest, pointers, destroyed := CloneTo(source, OWNER);
  }

  // ---------- an example ----------

  const LIST := ClassInfo(2, [], ListContainer, 0, None)

  /** One embedded list under two names. */
  const TWO_NAMES := ClassInfo(3, [VarEntry("children", Root(LIST), 8, true, false),
                                   VarEntry("items", Root(LIST), 8, true, false)], NoContainer, 0, None)

  lemma TwoNamesLeaves()
    ensures ObjectLeaves(TWO_NAMES, 0)
         == [ClassLeaf(0, TWO_NAMES), ClassLeaf(8, LIST), ListLeaf(8), ClassLeaf(8, LIST), ListLeaf(8)]
  {
    var ms := TWO_NAMES.members;
    assert TableLeaves(LIST.members, 8) == [];
    assert ChainLeaves(LIST, 8) == [] && CustomLeaves(LIST, 8) == [ListLeaf(8)];
    assert ObjectLeaves(LIST, 8) == [ClassLeaf(8, LIST), ListLeaf(8)];
    assert ms[1..] == [ms[1]] && ms[1..][1..] == [];
    assert EntryLeaves(ms[0], 0) == ObjectLeaves(LIST, 8) && EntryLeaves(ms[1], 0) == ObjectLeaves(LIST, 8);
    assert TableLeaves(ms[1..][1..], 0) == [];
    assert TableLeaves(ms[1..], 0) == EntryLeaves(ms[1], 0);
    assert TableLeaves(ms, 0) == EntryLeaves(ms[0], 0) + EntryLeaves(ms[1], 0);
    assert CustomLeaves(TWO_NAMES, 0) == [];
  }

  /** Cloning one object with one item: the map leads to a clone without locks. */
  method CloneTwoNames() returns (heap: Heap, pointers: map<Ref, Ref>, destroyed: Option<Ref>)
    ensures destroyed.Some? && StillMapped(heap, pointers, destroyed.value)
  {
    hide SourceOk, CreatedPassed, AllDistinct, ReachSet, Filled;
    TwoNamesLeaves();
    ghost var b := Block(map[0 := TWO_NAMES, 8 := LIST], map[], map[], map[8 := []], map[8 := []], 1);
    assert LeavesPresent(b, ObjectLeaves(TWO_NAMES, 0));
    assert Shares(ObjectLeaves(TWO_NAMES, 0), 2, 4);
    SharedLoses(b, TWO_NAMES, 2, 4);
    var dest;
    heap, dest, pointers, destroyed := CloneTo(Filled(TWO_NAMES, 8), OWNER);
  }
}

/** Counting the references that a heap holds, one per pointer cell, list slot and dict entry. */
module References {
  import opened ObjectModel

  datatype Slot = PtrSlot(block: nat, off: int) | ItemSlot(block: nat, off: int, index: nat)

  /** All reference cells of the heap. */
  ghost function Slots(h: Heap): set<Slot> {
    (set b, o | b in h && o in h[b].ptrs :: PtrSlot(b, o)) +
    (set b, o, i | b in h && o in h[b].items && 0 <= i < |h[b].items[o]| :: ItemSlot(b, o, i))
  }

  ghost predicate Holds(h: Heap, s: Slot, t: Ref) {
    match s
    case PtrSlot(b, o) => b in h && o in h[b].ptrs && h[b].ptrs[o] == t
    case ItemSlot(b, o, i) => b in h && o in h[b].items && i < |h[b].items[o]| && h[b].items[o][i] == t
  }

  /** The cells of the heap that hold `t`. */
  ghost function Holders(h: Heap, t: Ref): set<Slot> {
    set s | s in Slots(h) && Holds(h, s, t)
  }

  ghost function InDegree(h: Heap, t: Ref): nat {
    |Holders(h, t)|
  }

  function WithLocks(h: Heap, b: nat, n: int): Heap
    requires b in h
  {
    h[b := h[b].(locks := n)]
  }

  function WithPtr(h: Heap, b: nat, o: int, r: Ref): Heap
    requires b in h
  {
    h[b := h[b].(ptrs := h[b].ptrs[o := r])]
  }

  function WithItems(h: Heap, b: nat, o: int, rs: seq<Ref>): Heap
    requires b in h
  {
    h[b := h[b].(items := h[b].items[o := rs])]
  }

  function WithKeys(h: Heap, b: nat, o: int, ks: seq<string>): Heap
    requires b in h
  {
    h[b := h[b].(keys := h[b].keys[o := ks])]
  }

  function One(c: bool): nat { if c then 1 else 0 }

  lemma HoldersAre(h: Heap, t: Ref, s: Slot)
    ensures s in Holders(h, t) <==> Holds(h, s, t)
  {
  }

  /** A reference is counted for every pointer cell and every slot or entry that holds the object, and for no other. */
  lemma HoldersExactly(h: Heap, t: Ref)
    ensures forall b: nat, o: int :: PtrSlot(b, o) in Holders(h, t) <==> b in h && o in h[b].ptrs && h[b].ptrs[o] == t
    ensures forall b: nat, o: int, i: nat ::
              ItemSlot(b, o, i) in Holders(h, t) <==>
              b in h && o in h[b].items && i < |h[b].items[o]| && h[b].items[o][i] == t
  {
    forall x: Slot ensures x in Holders(h, t) <==> Holds(h, x, t) {
      HoldersAre(h, t, x);
    }
  }

  lemma SameHolders(h: Heap, k: Heap, t: Ref)
    requires forall s :: Holds(h, s, t) <==> Holds(k, s, t)
    ensures InDegree(h, t) == InDegree(k, t)
  {
    forall s ensures s in Holders(h, t) <==> s in Holders(k, t) {
      HoldersAre(h, t, s);
      HoldersAre(k, t, s);
    }
    assert Holders(h, t) == Holders(k, t);
  }

  /** Changing one cell changes the count by what that cell held before and holds after. */
  lemma OneSlotChanged(h: Heap, k: Heap, x: Slot, t: Ref)
    requires forall s | s != x :: Holds(h, s, t) <==> Holds(k, s, t)
    ensures InDegree(k, t) + One(Holds(h, x, t)) == InDegree(h, t) + One(Holds(k, x, t))
  {
    forall s ensures s in Holders(h, t) <==> Holds(h, s, t) {
      HoldersAre(h, t, s);
    }
    forall s ensures s in Holders(k, t) <==> Holds(k, s, t) {
      HoldersAre(k, t, s);
    }
    AlmostSameSets(Holders(h, t), Holders(k, t), x);
  }

  lemma HeldSomewhere(h: Heap, x: Slot, t: Ref)
    requires Holds(h, x, t)
    ensures InDegree(h, t) > 0
  {
    assert x in Holders(h, t);
  }

  /** Heaps with the same pointer cells and items hold the same references. */
  lemma InDegreeDependsOnCells(h: Heap, k: Heap, t: Ref)
    requires h.Keys == k.Keys
    requires forall b | b in h :: h[b].ptrs == k[b].ptrs && h[b].items == k[b].items
    ensures InDegree(h, t) == InDegree(k, t)
  {
    forall s ensures Holds(h, s, t) <==> Holds(k, s, t) {
      assert s.block in h <==> s.block in h.Keys;
      assert s.block in k <==> s.block in k.Keys;
    }
    SameHolders(h, k, t);
  }

  lemma InDegreeWithPtr(h: Heap, b: nat, o: int, r: Ref, t: Ref)
    requires b in h && o in h[b].ptrs
    ensures InDegree(WithPtr(h, b, o, r), t) + One(h[b].ptrs[o] == t) == InDegree(h, t) + One(r == t)
  {
    OneSlotChanged(h, WithPtr(h, b, o, r), PtrSlot(b, o), t);
  }

  lemma InDegreeWithItem(h: Heap, b: nat, o: int, i: nat, r: Ref, t: Ref)
    requires b in h && o in h[b].items && i < |h[b].items[o]|
    ensures InDegree(WithItems(h, b, o, h[b].items[o][i := r]), t) + One(h[b].items[o][i] == t)
         == InDegree(h, t) + One(r == t)
  {
    OneSlotChanged(h, WithItems(h, b, o, h[b].items[o][i := r]), ItemSlot(b, o, i), t);
  }

  lemma InDegreeAppend(h: Heap, b: nat, o: int, r: Ref, t: Ref)
    requires b in h && o in h[b].items
    ensures InDegree(WithItems(h, b, o, h[b].items[o] + [r]), t) == InDegree(h, t) + One(r == t)
  {
    OneSlotChanged(h, WithItems(h, b, o, h[b].items[o] + [r]), ItemSlot(b, o, |h[b].items[o]|), t);
  }

  lemma InDegreePop(h: Heap, b: nat, o: int, t: Ref)
    requires b in h && o in h[b].items && h[b].items[o] != []
    ensures var n := |h[b].items[o]| - 1;
            InDegree(WithItems(h, b, o, h[b].items[o][..n]), t) + One(h[b].items[o][n] == t) == InDegree(h, t)
  {
    var n := |h[b].items[o]| - 1;
    OneSlotChanged(h, WithItems(h, b, o, h[b].items[o][..n]), ItemSlot(b, o, n), t);
  }

  /** Filling an empty list with null slots adds no reference to any object. */
  lemma InDegreeResize(h: Heap, b: nat, o: int, n: nat, t: Ref)
    requires b in h && o in h[b].items && h[b].items[o] == [] && t != Null
    ensures InDegree(WithItems(h, b, o, seq(n, _ => Null)), t) == InDegree(h, t)
  {
    SameHolders(h, WithItems(h, b, o, seq(n, _ => Null)), t);
  }

  lemma CardinalWithout<T>(s: set<T>, x: T)
    ensures |s| == |s - {x}| + One(x in s)
  {
    if x in s {
      assert s == (s - {x}) + {x};
    } else {
      assert s == s - {x};
    }
  }

  lemma AlmostSameSets<T>(a: set<T>, b: set<T>, x: T)
    requires forall y | y != x :: y in a <==> y in b
    ensures |b| + One(x in a) == |a| + One(x in b)
  {
    assert a - {x} == b - {x};
    CardinalWithout(a, x);
    CardinalWithout(b, x);
  }
}

/**
 The copier: a memoised deep clone of a possibly shared and cyclic object graph.

 The fields `heap`, `pointers` and `level` are the program's. `destroyed` is the first clone that
 lost its last lock during a copy: `pointers` still leads to it, so that the program has no defined
 continuation and the model stops there. `into` names the destination of a copy into an object that
 existed before, and the objects on its side; that these lose their last lock is no matter of the
 copier's. The ghost fields keep the finished map between clones and sources after `pointers` has
 been cleared, and what the stack and the outside hold.
 */
module CopierModel {
  import opened Basics
  import opened ObjectModel
  import opened Layout
  import opened References
  import opened CloneInvariant
  import opened CloneProgress
  import opened CloneSteps
  import opened CloneContents
  import opened CloneTheorem

  /** Sources of which no clone exists yet: what bounds the recursion. */
  ghost function Room(h0: Heap, memo: map<Ref, Ref>): set<nat> {
    set b | b in h0 && At(b, 0) !in memo
  }

  lemma RoomShrinks(h0: Heap, s: State, t: State)
    requires Grown(s, t)
    ensures Room(h0, t.memo) <= Room(h0, s.memo)
  {
  }

  lemma RoomTaken(h0: Heap, memo: map<Ref, Ref>, src: Ref, r: Ref)
    requires IsHeapObject(h0, src) && src !in memo
    ensures Room(h0, memo[src := r]) < Room(h0, memo)
  {
    assert src.block in Room(h0, memo) && src.block !in Room(h0, memo[src := r]);
  }

  lemma SourceFacts(h0: Heap, scope: set<Ref>, s: State, r: Ref)
    requires Inv(h0, scope, s) && IsObject(h0, r)
    ensures IsObject(s.heap, r) && s.heap[r.block] == h0[r.block]
  {
    assert SourceKept(h0, s);
  }

  lemma MemoFacts(h0: Heap, scope: set<Ref>, s: State, r: Ref)
    requires Inv(h0, scope, s) && r in s.memo
    ensures IsClone(s, s.memo[r]) && s.memo[r].block in s.heap
  {
    assert MemoOk(h0, scope, s);
  }

  lemma FreshFacts(h0: Heap, scope: set<Ref>, s: State, b: nat)
    requires Inv(h0, scope, s) && b !in s.heap
    ensures b !in s.origin && b !in h0
  {
    assert MemoOk(h0, scope, s) && SourceKept(h0, s);
  }

  lemma UndoneFacts(h0: Heap, scope: set<Ref>, s: State, r: Ref)
    requires Inv(h0, scope, s) && r !in s.memo
    ensures r !in s.done
  {
    assert r in s.done ==> Cloned(h0, s.heap, s.memo, r);
  }

  lemma FillFacts(h0: Heap, scope: set<Ref>, s: State, sr: Ref, db: nat, ls: seq<Leaf>)
    requires SourceOk(h0) && Inv(h0, scope, s) && Fillable(h0, s, sr, db, ls)
    ensures IsHeapObject(h0, sr) && sr.block in s.heap && s.heap[sr.block] == h0[sr.block]
    ensures Filling(s, sr, db) && db in s.heap && db !in h0
    ensures LeavesPresent(h0[sr.block], ls) && LeavesPresent(s.heap[db], ls)
    ensures forall l | l in ls :: l in ObjectLeaves(ClassOf(h0, sr), 0)
  {
    assert SourceBlockOk(h0, h0[sr.block]);
    assert MemoOk(h0, scope, s) && SourceKept(h0, s);
  }

  /** What is being copied has its targets in scope. */
  lemma FillingCovered(h0: Heap, scope: set<Ref>, s: State, sr: Ref, db: nat)
    requires Closed(h0, scope) && Inv(h0, scope, s) && Filling(s, sr, db)
    ensures Covered(h0, scope, sr)
  {
    hide Edge;
    assert MemoOk(h0, scope, s) && IntoOk(h0, scope, s);
  }

  lemma CreatedFacts(h0: Heap, s: State, src: Ref, b: nat, cls: ClassInfo)
    requires SourceOk(h0) && IsHeapObject(h0, src) && cls == ClassOf(h0, src)
    ensures IsObject(Created(s, src, b, NewBlock(cls)).heap, At(b, 0))
    ensures ClassOf(Created(s, src, b, NewBlock(cls)).heap, At(b, 0)) == cls
  {
    assert SourceBlockOk(h0, h0[src.block]);
    NewBlockPresent(h0[src.block], cls);
  }

  lemma FinishFacts(h0: Heap, scope: set<Ref>, s: State, src: Ref, b: nat, created: State, ls: seq<Leaf>)
    requires Inv(h0, scope, s) && src.At? && src.block in h0
    requires src in created.memo && created.memo[src] == At(b, 0)
    requires Progress(h0[src.block], created, s, b, ls, multiset{})
    ensures src in s.memo && s.memo[src] == At(b, 0) && b in s.heap
    ensures LeavesMatch(h0[src.block], s.heap[b], s.memo, ls)
  {
  }

  /** Marking a filled clone as complete finishes the copy of its source. */
  lemma Finish(h0: Heap, scope: set<Ref>, before: State, created: State, s: State, src: Ref, b: nat, cls: ClassInfo)
    requires Inv(h0, scope, before) && Inv(h0, scope, s) && IsHeapObject(h0, src) && cls == ClassOf(h0, src)
    requires src !in before.memo && b !in before.heap && created == Created(before, src, b, NewBlock(cls))
    requires Progress(h0[src.block], created, s, b, ObjectLeaves(cls, 0), multiset{})
    ensures Inv(h0, scope, s.(done := s.done + {src}))
    ensures Handed(before, s.(done := s.done + {src}), src, At(b, 0))
  {
    hide Inv, Progress, Handed;
    FreshFacts(h0, scope, before, b);
    UndoneFacts(h0, scope, before, src);
    FinishFacts(h0, scope, s, src, b, created, ObjectLeaves(cls, 0));
    FinishedKeeps(h0, scope, s, src, b);
    FinishedHanded(before, created, s, src, b, NewBlock(cls), h0[src.block], ObjectLeaves(cls, 0));
  }

  lemma PointerTarget(h0: Heap, scope: set<Ref>, s: State, sr: Ref, db: nat, o: int)
    requires SourceOk(h0) && Closed(h0, scope) && Inv(h0, scope, s) && Fillable(h0, s, sr, db, [PtrLeaf(o)])
    requires o in h0[sr.block].ptrs && h0[sr.block].ptrs[o] != Null
    ensures IsHeapObject(h0, h0[sr.block].ptrs[o]) && h0[sr.block].ptrs[o] in scope
  {
    assert PtrLeaf(o) in [PtrLeaf(o)];
    FillFacts(h0, scope, s, sr, db, [PtrLeaf(o)]);
    FillingCovered(h0, scope, s, sr, db);
    TargetFacts(h0, scope, sr, PtrLeaf(o), h0[sr.block].ptrs[o]);
  }

  lemma PointerLeaf(h0: Heap, s: State, sr: Ref, db: nat, o: int)
    requires Fillable(h0, s, sr, db, [PtrLeaf(o)])
    ensures HasLeaf(h0, sr, PtrLeaf(o))
  {
    hide ObjectLeaves;
    assert PtrLeaf(o) in [PtrLeaf(o)];
  }

  lemma ContainerLeaf(h0: Heap, s: State, sr: Ref, db: nat, l: Leaf)
    requires Fillable(h0, s, sr, db, [l]) && l.IsContainer()
    ensures HasContainer(h0, sr, l.off)
  {
    hide ObjectLeaves;
    assert l in [l];
  }

  /** The destination cell can be cleared, and the target copied next. */
  lemma PointerCleared(h0: Heap, scope: set<Ref>, s: State, sr: Ref, db: nat, o: int)
    requires SourceOk(h0) && Closed(h0, scope) && Inv(h0, scope, s) && Fillable(h0, s, sr, db, [PtrLeaf(o)])
    ensures sr.At? && sr.block in s.heap && sr.block in h0 && s.heap[sr.block] == h0[sr.block] && db in s.heap
        && sr.block != db
    ensures o in h0[sr.block].ptrs && o in s.heap[db].ptrs
    ensures PtrReady(h0, s, h0[sr.block].ptrs[o], s.heap[db].ptrs[o])
    ensures Inv(h0, scope, PtrStored(s, db, o, Null))
    ensures var was := s.heap[db].ptrs[o]; var t := PtrStored(s, db, o, Null);
            was != Null ==> IsLive(t, was) && was.block in s.heap && was in t.pending
                            && (h0[sr.block].ptrs[o] == Null ==> was.block in s.into.others)
    ensures h0[sr.block].ptrs[o] != Null ==>
              && IsHeapObject(h0, h0[sr.block].ptrs[o]) && h0[sr.block].ptrs[o] in scope
              && IsObject(PtrStored(s, db, o, Null).heap, h0[sr.block].ptrs[o])
  {
    hide Inv, Fillable, SourceOk, Closed, InDegree;
    PointerFacts(h0, scope, s, sr, db, o);
    PointerLeaf(h0, s, sr, db, o);
    PtrStoredKeeps(h0, scope, s, sr, db, o, Null);
    if h0[sr.block].ptrs[o] != Null {
      PointerTarget(h0, scope, s, sr, db, o);
      SourceFacts(h0, scope, PtrStored(s, db, o, Null), h0[sr.block].ptrs[o]);
    }
  }

  /** What is known when the clone of the target has come back. */
  lemma PointerCloned(h0: Heap, scope: set<Ref>, s0: State, s1: State, s2: State, sr: Ref, db: nat, o: int,
          target: Ref, tmp: Ref)
    requires SourceOk(h0) && Inv(h0, scope, s0) && Fillable(h0, s0, sr, db, [PtrLeaf(o)])
    requires db in s0.heap && o in s0.heap[db].ptrs && s1 == PtrStored(s0, db, o, Null)
    requires Inv(h0, scope, s2) && Handed(s1, s2, target, tmp)
    requires PtrReady(h0, s0, target, s0.heap[db].ptrs[o])
    ensures Filling(s2, sr, db) && db in s2.heap && SameButLocks(s1.heap[db], s2.heap[db])
    ensures o in s2.heap[db].ptrs && s2.heap[db].ptrs[o] == Null
    ensures IsClone(s2, tmp) && tmp in s2.pending
    ensures var was := s0.heap[db].ptrs[o];
            was == Null || (Droppable(s2, was, tmp) && was.block in s0.heap)
  {
    hide Inv, Handed, SourceOk;
    PointerFacts(h0, scope, s0, sr, db, o);
    FillingKept(s1, s2, target, tmp, sr, db);
    MemoFacts(h0, scope, s2, target);
    HandedPending(s1, s2, target, tmp);
    HandedLive(s1, s2, target, tmp);
  }

  lemma HandedLive(s: State, t: State, r: Ref, tmp: Ref)
    requires Handed(s, t, r, tmp)
    ensures t.into == s.into && Live(s.origin, s.into) <= Live(t.origin, t.into)
    ensures forall b | b in s.heap :: b in t.heap
  {
  }

  /** What a pointer cell held: the clone that is stored there again, or an object of the destination. */
  ghost predicate Droppable(s: State, was: Ref, tmp: Ref) {
    && IsLive(s, was) && was.block in s.heap && was in s.pending - multiset{tmp}
    && (was == tmp || was.block in s.into.others)
  }

  /** What a failing copy of a pointer leaves: the cell is null, and what it held is released. */
  function Cleared(s: State, db: nat, o: int): State
    requires db in s.heap && o in s.heap[db].ptrs
    requires s.heap[db].ptrs[o].At? ==> s.heap[db].ptrs[o].block in s.heap
  {
    var t := PtrStored(s, db, o, Null);
    if s.heap[db].ptrs[o] == Null then t else Unlocked(t, s.heap[db].ptrs[o])
  }

  lemma ClearedOutside(s: State, db: nat, o: int)
    requires db in s.heap && o in s.heap[db].ptrs
    requires s.heap[db].ptrs[o].At? ==> s.heap[db].ptrs[o].block in s.heap
    ensures Outside(s, Cleared(s, db, o), db)
  {
    hide Local, PtrStored, Unlocked;
    var was := s.heap[db].ptrs[o];
    LocalPtr(s, db, o, Null);
    if was != Null { LocalPtrUnlocked(s, db, o, Null, was); }
    assert Cleared(s, db, o).pending == s.pending by { ClearedPending(s, db, o); }
    LocalOutside(s, Cleared(s, db, o), db);
  }

  lemma ClearedPending(s: State, db: nat, o: int)
    requires db in s.heap && o in s.heap[db].ptrs
    requires s.heap[db].ptrs[o].At? ==> s.heap[db].ptrs[o].block in s.heap
    ensures Cleared(s, db, o).pending == s.pending
  {
    hide WithPtr, WithLocks;
  }

  lemma LocalOutside(s: State, t: State, db: nat)
    requires Local(s, t, db) && t.pending == s.pending && db in s.heap && db in t.heap
    ensures Outside(s, t, db)
  {
  }

  lemma OutsideTrans(s: State, t: State, u: State, db: nat)
    requires Outside(s, t, db) && Outside(t, u, db)
    ensures Outside(s, u, db)
  {
    GrownTrans(s, t, u);
    GrownHeap(s, t);
    OthersTrans(s, t, u, Some(db));
  }

  lemma ProgressOutside(src: Block, s: State, t: State, db: nat, ls: seq<Leaf>)
    requires Progress(src, s, t, db, ls, multiset{})
    ensures Outside(s, t, db)
  {
  }

  // ---------- facts for the list loop ----------

  /** What is known of a container before it is emptied. */
  lemma ContainerFacts(h0: Heap, scope: set<Ref>, s: State, sr: Ref, db: nat, l: Leaf)
    requires SourceOk(h0) && Inv(h0, scope, s) && Fillable(h0, s, sr, db, [l]) && l.IsContainer()
    ensures sr.At? && sr.block in s.heap && sr.block in h0 && s.heap[sr.block] == h0[sr.block] && db in s.heap
        && sr.block != db
    ensures Filling(s, sr, db) && HasContainer(h0, sr, l.off)
    ensures LeafPresent(h0[sr.block], l) && LeafPresent(s.heap[db], l)
    ensures l.off in h0[sr.block].items && l.off in h0[sr.block].keys
    ensures l.off in s.heap[db].items && l.off in s.heap[db].keys
    ensures l.DictLeaf? ==> |h0[sr.block].keys[l.off]| == |h0[sr.block].items[l.off]|
  {
    hide Inv;
    FillFacts(h0, scope, s, sr, db, [l]);
    ContainerLeaf(h0, s, sr, db, l);
    assert l in [l];
    assert SourceBlockOk(h0, h0[sr.block]);
  }

  /** An emptied container is still part of a clone that is being filled. */
  lemma EmptiedFacts(h0: Heap, scope: set<Ref>, s: State, e: State, sr: Ref, db: nat, o: int)
    requires Inv(h0, scope, e) && Filling(s, sr, db) && Emptied(s, e, db, o) && HasContainer(h0, sr, o)
    ensures Filling(e, sr, db) && db in e.heap && o in e.heap[db].items && e.heap[db].items[o] == []
    ensures db in s.heap && e.heap[db].keys == s.heap[db].keys && e.memo == s.memo && sr.block != db
    ensures sr.At? && sr.block in h0 && sr.block in e.heap && e.heap[sr.block] == h0[sr.block]
    ensures forall n: nat :: Inv(h0, scope, Resized(e, db, o, n))
    ensures Inv(h0, scope, KeysStored(e, db, o, []))
  {
    hide Inv;
    FillingFacts(h0, scope, e, sr, db);
    forall n: nat ensures Inv(h0, scope, Resized(e, db, o, n)) { ResizedKeeps(h0, scope, e, sr, db, o, n); }
    KeysStoredKeeps(h0, scope, e, sr, db, o, []);
  }

  lemma ListNext(h0: Heap, scope: set<Ref>, s0: State, s: State, sr: Ref, db: nat, o: int, i: nat)
    requires SourceOk(h0) && Closed(h0, scope) && Inv(h0, scope, s0) && Inv(h0, scope, s)
    requires Fillable(h0, s0, sr, db, [ListLeaf(o)]) && Filling(s, sr, db)
    requires ListPartial(h0[sr.block], s0, s, db, o, i) && i < |h0[sr.block].items[o]|
    ensures var r := h0[sr.block].items[o][i]; IsHeapObject(h0, r) && r in scope && IsObject(s.heap, r)
    ensures Room(h0, s.memo) <= Room(h0, s0.memo) && db in s.heap
  {
    hide Inv, SourceOk, Closed;
    FillFacts(h0, scope, s0, sr, db, [ListLeaf(o)]);
    FillingCovered(h0, scope, s0, sr, db);
    assert ListLeaf(o) in [ListLeaf(o)];
    TargetFacts(h0, scope, sr, ListLeaf(o), h0[sr.block].items[o][i]);
    SourceFacts(h0, scope, s, h0[sr.block].items[o][i]);
    RoomShrinks(h0, s0, s);
    FillingFacts(h0, scope, s, sr, db);
  }

  lemma FillingFacts(h0: Heap, scope: set<Ref>, s: State, sr: Ref, db: nat)
    requires Inv(h0, scope, s) && Filling(s, sr, db)
    ensures db in s.heap && db !in h0 && IsHeapObject(h0, sr) && sr.block in s.heap
        && s.heap[sr.block] == h0[sr.block]
  {
    assert MemoOk(h0, scope, s) && SourceKept(h0, s);
  }

  lemma ListCloned(h0: Heap, scope: set<Ref>, s0: State, s: State, t: State, sr: Ref, db: nat, o: int, i: nat, tmp: Ref)
    requires SourceOk(h0) && Inv(h0, scope, s) && Inv(h0, scope, t) && Filling(s, sr, db) && sr.At? && sr.block in h0
    requires ListPartial(h0[sr.block], s0, s, db, o, i) && i < |h0[sr.block].items[o]|
        && h0[sr.block].items[o][i] != Null
    requires Handed(s, t, h0[sr.block].items[o][i], tmp)
    ensures Filling(t, sr, db) && sr.block in t.heap && t.heap[sr.block] == h0[sr.block] && db in t.heap
    ensures o in t.heap[db].items && i < |t.heap[db].items[o]| && t.heap[db].items[o][i] == Null
    ensures IsClone(t, tmp) && tmp in t.pending
    ensures var u := ItemStored(t, db, o, i, tmp);
            Filling(u, sr, db) && ListPartial(h0[sr.block], s0, u, db, o, i + 1)
            && db in u.heap && o in u.heap[db].items && sr.block in u.heap && u.heap[sr.block] == h0[sr.block]
  {
    hide Inv, Handed, SourceOk, Outside;
    FillingFacts(h0, scope, s, sr, db);
    FillingKept(s, t, h0[sr.block].items[o][i], tmp, sr, db);
    MemoFacts(h0, scope, t, h0[sr.block].items[o][i]);
    FillingFacts(h0, scope, t, sr, db);
    ListStep(h0[sr.block], s0, s, t, db, o, i, tmp);
  }

  // ---------- facts for the dict loop ----------

  lemma DictNext(h0: Heap, scope: set<Ref>, s0: State, s: State, sr: Ref, db: nat, o: int, i: nat)
    requires SourceOk(h0) && Closed(h0, scope) && Inv(h0, scope, s0) && Inv(h0, scope, s)
    requires Fillable(h0, s0, sr, db, [DictLeaf(o)]) && Filling(s, sr, db)
    requires DictPartial(h0[sr.block], s0, s, db, o, i) && i < |h0[sr.block].items[o]|
    ensures var r := h0[sr.block].items[o][i]; IsHeapObject(h0, r) && r in scope && IsObject(s.heap, r)
    ensures Room(h0, s.memo) <= Room(h0, s0.memo)
  {
    hide Inv, SourceOk, Closed;
    FillFacts(h0, scope, s0, sr, db, [DictLeaf(o)]);
    FillingCovered(h0, scope, s0, sr, db);
    assert DictLeaf(o) in [DictLeaf(o)];
    TargetFacts(h0, scope, sr, DictLeaf(o), h0[sr.block].items[o][i]);
    SourceFacts(h0, scope, s, h0[sr.block].items[o][i]);
    RoomShrinks(h0, s0, s);
  }

  /** The dict takes over the reference it is handed. */
  lemma DictCloned(h0: Heap, scope: set<Ref>, s0: State, s: State, t: State, sr: Ref, db: nat, o: int, i: nat, tmp: Ref)
    requires SourceOk(h0) && Inv(h0, scope, s) && Inv(h0, scope, t) && Filling(s, sr, db) && sr.At? && sr.block in h0
    requires DictPartial(h0[sr.block], s0, s, db, o, i) && i < |h0[sr.block].items[o]| && i < |h0[sr.block].keys[o]|
    requires h0[sr.block].items[o][i] != Null && Handed(s, t, h0[sr.block].items[o][i], tmp)
    requires HasContainer(h0, sr, o)
    ensures Filling(t, sr, db) && sr.block in t.heap && t.heap[sr.block] == h0[sr.block] && db in t.heap
        && sr.block != db
    ensures o in t.heap[db].items && o in t.heap[db].keys
    ensures var u := KeysStored(ItemAppended(t, db, o, tmp), db, o, t.heap[db].keys[o] + [h0[sr.block].keys[o][i]]);
            Inv(h0, scope, u) && Filling(u, sr, db) && DictPartial(h0[sr.block], s0, u, db, o, i + 1)
  {
    hide Inv, Handed, SourceOk, Outside, InDegree;
    FillingFacts(h0, scope, s, sr, db);
    FillingKept(s, t, h0[sr.block].items[o][i], tmp, sr, db);
    MemoFacts(h0, scope, t, h0[sr.block].items[o][i]);
    FillingFacts(h0, scope, t, sr, db);
    DictStep(h0[sr.block], s0, s, t, db, o, i, tmp);
    assert HasContainer(h0, sr, o);
    ItemAppendedKeeps(h0, scope, t, sr, db, o, tmp);
    KeysStoredKeeps(h0, scope, ItemAppended(t, db, o, tmp), sr, db, o, t.heap[db].keys[o] + [h0[sr.block].keys[o][i]]);
  }

  // ---------- facts for members and tables ----------

  lemma ValueCopied(h0: Heap, scope: set<Ref>, s: State, sr: Ref, db: nat, o: int)
    requires SourceOk(h0) && Inv(h0, scope, s) && Fillable(h0, s, sr, db, [ValueLeaf(o)])
    ensures sr.At? && sr.block in s.heap && sr.block in h0 && s.heap[sr.block] == h0[sr.block] && db in s.heap
    ensures o in h0[sr.block].vals && o in s.heap[db].vals
    ensures var t := ValueStored(s, db, o, h0[sr.block].vals[o]);
            Inv(h0, scope, t) && Progress(h0[sr.block], s, t, db, [ValueLeaf(o)], multiset{})
    ensures h0[sr.block].vals[o] == s.heap[db].vals[o] ==> ValueStored(s, db, o, h0[sr.block].vals[o]) == s
  {
    hide Inv, SourceOk, Fillable, LeafMatches;
    FillFacts(h0, scope, s, sr, db, [ValueLeaf(o)]);
    assert LeafPresent(h0[sr.block], ValueLeaf(o)) && LeafPresent(s.heap[db], ValueLeaf(o)) by {
      assert ValueLeaf(o) in [ValueLeaf(o)];
    }
    var v := h0[sr.block].vals[o];
    ValueStoredKeeps(h0, scope, s, sr, db, o, v);
    ValueDone(h0[sr.block], s.heap[db], ValueStored(s, db, o, v).heap[db], s.memo, o);
    if v == s.heap[db].vals[o] {
      assert s.heap[db].vals[o := v] == s.heap[db].vals;
    }
  }

  /** Two pointer cells are equal only when both are null: a skipped pointer needs no copy. */
  lemma PointerSkipped(h0: Heap, scope: set<Ref>, s: State, sr: Ref, db: nat, o: int)
    requires SourceOk(h0) && Inv(h0, scope, s) && Fillable(h0, s, sr, db, [PtrLeaf(o)])
    ensures sr.At? && sr.block in s.heap && sr.block in h0 && s.heap[sr.block] == h0[sr.block] && db in s.heap
    ensures o in h0[sr.block].ptrs && o in s.heap[db].ptrs
    ensures s.heap[db].ptrs[o].At? ==> s.heap[db].ptrs[o].block in s.heap
    ensures h0[sr.block].ptrs[o] == s.heap[db].ptrs[o] ==> Progress(h0[sr.block], s, s, db, [PtrLeaf(o)], multiset{})
  {
    hide Inv, SourceOk, Fillable;
    PointerFacts(h0, scope, s, sr, db, o);
    if h0[sr.block].ptrs[o] == s.heap[db].ptrs[o] {
      assert s.heap[db].ptrs[o := Null] == s.heap[db].ptrs;
      PtrDone(h0[sr.block], s.heap[db], s.heap[db], s.memo, s.memo, o);
    }
  }

  /** An embedded object has the class its member entry declares, in source and clone alike. */
  lemma EmbeddedFacts(h0: Heap, scope: set<Ref>, s: State, sr: Ref, db: nat, c: ClassInfo, at: int)
    requires SourceOk(h0) && Inv(h0, scope, s) && Fillable(h0, s, sr, db, ObjectLeaves(c, at))
    ensures sr.At? && sr.block in h0 && sr.block in s.heap && db in s.heap && s.heap[sr.block] == h0[sr.block]
    ensures IsObject(s.heap, At(sr.block, at)) && ClassOf(s.heap, At(sr.block, at)) == c
    ensures IsObject(s.heap, At(db, at)) && ClassOf(s.heap, At(db, at)) == c
  {
    hide Inv, SourceOk, Fillable;
    FillFacts(h0, scope, s, sr, db, ObjectLeaves(c, at));
    assert ObjectLeaves(c, at)[0] == ClassLeaf(at, c);
    assert LeafPresent(h0[sr.block], ClassLeaf(at, c)) && LeafPresent(s.heap[db], ClassLeaf(at, c));
  }

  lemma NothingCopied(h0: Heap, scope: set<Ref>, s: State, sr: Ref, db: nat, ls: seq<Leaf>)
    requires Fillable(h0, s, sr, db, ls)
    ensures Progress(h0[sr.block], s, s, db, [], multiset{})
    ensures [] + ls == ls
  {
    ProgressRefl(h0[sr.block], s, db);
  }

  function RestOfChain(t: Option<ClassInfo>, at: int): seq<Leaf> {
    if t.Some? then ChainLeaves(t.value, at) else []
  }

  ghost predicate WithinClass(t: Option<ClassInfo>, cls: ClassInfo) {
    t.Some? ==> t.value == cls || t.value < cls
  }

  lemma ObjectLeavesAre(c: ClassInfo, at: int)
    ensures ObjectLeaves(c, at) == [ClassLeaf(at, c)] + (ChainLeaves(c, at) + CustomLeaves(c, at))
  {
  }

  lemma StartOfObject(h0: Heap, scope: set<Ref>, s: State, sr: Ref, db: nat, c: ClassInfo, at: int)
    requires SourceOk(h0) && Inv(h0, scope, s) && Fillable(h0, s, sr, db, ObjectLeaves(c, at)) && sr.At?
        && sr.block in h0
    ensures Progress(h0[sr.block], s, s, db, [ClassLeaf(at, c)], multiset{})
    ensures Fillable(h0, s, sr, db, ChainLeaves(c, at) + CustomLeaves(c, at))
    ensures ObjectLeaves(c, at) == [ClassLeaf(at, c)] + (ChainLeaves(c, at) + CustomLeaves(c, at))
  {
    hide Inv, SourceOk, ObjectLeaves, ChainLeaves, CustomLeaves;
    var rest := ChainLeaves(c, at) + CustomLeaves(c, at);
    var l := ClassLeaf(at, c);
    ObjectLeavesAre(c, at);
    FillFacts(h0, scope, s, sr, db, [l] + rest);
    assert l in [l] + rest;
    ClassDone(h0[sr.block], s.heap[db], s.memo, l);
    FillableKept(h0, s, s, sr, db, [l], rest);
  }

  lemma NextTable(h0: Heap, a: State, s: State, sr: Ref, db: nat, done: seq<Leaf>, t: ClassInfo, at: int,
          tail: seq<Leaf>)
    requires Fillable(h0, s, sr, db, RestOfChain(Some(t), at) + tail)
    ensures Fillable(h0, s, sr, db, TableLeaves(t.members, at))
    ensures RestOfChain(Some(t), at) + tail
         == TableLeaves(t.members, at) + (RestOfChain(t.parent, at + t.offsetToParent) + tail)
  {
    var table, rest := TableLeaves(t.members, at), RestOfChain(t.parent, at + t.offsetToParent) + tail;
    assert RestOfChain(Some(t), at) + tail == table + rest;
    FillableSplit(h0, s, sr, db, table, rest);
  }

  lemma RoomShrunk(h0: Heap, s: State, t: State, sr: Ref, db: nat, ls: seq<Leaf>)
    requires sr.At? && sr.block in h0 && Progress(h0[sr.block], s, t, db, ls, multiset{})
    ensures Room(h0, t.memo) <= Room(h0, s.memo)
  {
    RoomShrinks(h0, s, t);
  }

  lemma EmptyTable(at: int)
    ensures TableLeaves([], at) == []
  {
  }

  lemma ChainIs(t: Option<ClassInfo>, at: int)
    ensures RestOfChain(t, at) == if t.Some? then ChainLeaves(t.value, at) else []
  {
  }

  lemma NextEntry(h0: Heap, s: State, sr: Ref, db: nat, ms: seq<VarEntry>, at: int)
    requires ms != [] && Fillable(h0, s, sr, db, TableLeaves(ms, at))
    ensures TableLeaves(ms, at) == EntryLeaves(ms[0], at) + TableLeaves(ms[1..], at)
    ensures Fillable(h0, s, sr, db, EntryLeaves(ms[0], at))
  {
    hide Fillable;
    FillableSplit(h0, s, sr, db, EntryLeaves(ms[0], at), TableLeaves(ms[1..], at));
  }

  /** Every class in scope exposes each of its containers once. */
  ghost predicate AllDistinct(h0: Heap, scope: set<Ref>) {
    forall r | r in scope && IsHeapObject(h0, r) :: DistinctContainers(ObjectLeaves(ClassOf(h0, r), 0))
  }

  /** What the copy of one object into a new block passed through. */
  ghost predicate CreatedPassed(h0: Heap, scope: set<Ref>, s: State, src: Ref) {
    && IsHeapObject(h0, src)
    && exists b :: b !in s.heap && var t := Created(s, src, b, NewBlock(ClassOf(h0, src)));
                   Passed(h0, scope, t, src, b, ObjectLeaves(ClassOf(h0, src), 0))
  }

  /** An aliased member: the cell held the same clone already, and drops the extra lock. */
  lemma PointerHeldTwice(h0: Heap, scope: set<Ref>, s: State, t: State, db: nat, o: int, r: Ref)
    requires Inv(h0, scope, t) && db in s.heap && o in s.heap[db].ptrs && t == PtrStored(s, db, o, r)
    requires IsClone(t, r) && r in t.pending
    ensures r.block in t.heap && t.heap[r.block].locks > 1
  {
    hide Inv, InDegree;
    assert Holds(t.heap, PtrSlot(db, o), r);
    HeldSomewhere(t.heap, PtrSlot(db, o), r);
    HeldHasLock(h0, scope, t, r);
  }

  lemma LockAroundPtr(h: Heap, t: nat, db: nat, o: int, r: Ref)
    requires t in h && db in h
    ensures var k := WithPtr(WithLocks(h, t, h[t].locks + 1), db, o, r);
            k[t].locks == h[t].locks + 1 && WithLocks(k, t, k[t].locks - 1) == WithPtr(h, db, o, r)
  {
  }

  lemma LockAroundItems(h: Heap, t: nat, db: nat, o: int, rs: seq<Ref>)
    requires t in h && db in h
    ensures var k := WithItems(WithLocks(h, t, h[t].locks + 1), db, o, rs);
            k[t].locks == h[t].locks + 1 && WithLocks(k, t, k[t].locks - 1) == WithItems(h, db, o, rs)
  {
  }

  /** Querying the held reference into the cell and dropping the holder leaves one lock for the cell. */
  lemma StoredPtr(s: State, db: nat, o: int, r: Ref)
    requires r.At? && r.block in s.heap && db in s.heap && o in s.heap[db].ptrs && s.heap[db].ptrs[o] == Null
    ensures var a := Locked(s, r); var b := a.(heap := WithPtr(a.heap, db, o, r), pending := a.pending - multiset{r});
            b.heap[r.block].locks == s.heap[r.block].locks + 1 && Unlocked(b, r) == PtrStored(s, db, o, r)
  {
    hide WithPtr, WithLocks;
    LockAroundPtr(s.heap, r.block, db, o, r);
    PendingAround(s.pending, r);
  }

  lemma PendingAround(p: multiset<Ref>, r: Ref)
    ensures p + multiset{r} - multiset{r} - multiset{r} == p + multiset{} - multiset{r}
  {
  }

  lemma StoredItem(s: State, db: nat, o: int, i: nat, r: Ref)
    requires r.At? && r.block in s.heap && db in s.heap && o in s.heap[db].items && i < |s.heap[db].items[o]|
        && s.heap[db].items[o][i] == Null
    ensures var a := Locked(s, r);
            var stored := WithItems(a.heap, db, o, s.heap[db].items[o][i := r]);
            var b := a.(heap := stored, pending := a.pending - multiset{r});
            b.heap[r.block].locks == s.heap[r.block].locks + 1 && Unlocked(b, r) == ItemStored(s, db, o, i, r)
  {
    hide WithItems, WithLocks;
    LockAroundItems(s.heap, r.block, db, o, s.heap[db].items[o][i := r]);
    PendingAround(s.pending, r);
  }

  lemma FillableBlock(h0: Heap, s: State, sr: Ref, db: nat, ls: seq<Leaf>)
    requires Fillable(h0, s, sr, db, ls)
    ensures db in s.heap && Filling(s, sr, db)
  {
  }

  lemma UnfilledRest(src: Block, s: State, t: State, db: nat, ls: seq<Leaf>, ks: seq<Leaf>)
    requires Progress(src, s, t, db, ls, multiset{})
    ensures db in s.heap && db in t.heap && s.into == t.into
    ensures Unfilled(s.into.others, s.heap[db], ls + ks) ==> Unfilled(t.into.others, t.heap[db], ks)
  {
    hide Unfilled, BlockProgress;
    if Unfilled(s.into.others, s.heap[db], ls + ks) { UnfilledKept(src, s, t, db, ls, ks); }
  }

  lemma UnfilledLosesNothing(s: State, db: nat, l: Leaf)
    requires db in s.heap && l.IsContainer() && l.off in s.heap[db].items
    ensures Unfilled(s.into.others, s.heap[db], [l]) ==> !Loses(s, db, l.off)
  {
    hide Loses;
    assert l in [l];
    if Unfilled(s.into.others, s.heap[db], [l]) { NothingToLose(s, db, l.off); }
  }

  lemma CreatedUnfilled(h0: Heap, scope: set<Ref>, src: Ref, others: set<nat>, h: Heap, b: nat)
    requires src in scope && IsHeapObject(h0, src) && b in h && h[b] == NewBlock(ClassOf(h0, src))
    ensures AllDistinct(h0, scope) ==> Unfilled(others, h[b], ObjectLeaves(ClassOf(h0, src), 0))
  {
    hide Unfilled, NewBlock, ObjectLeaves;
    if AllDistinct(h0, scope) { NewBlockUnfilled(others, ClassOf(h0, src)); }
  }

  lemma CreationPassed(h0: Heap, scope: set<Ref>, s: State, src: Ref, b: nat)
    requires IsHeapObject(h0, src) && b !in s.heap
    requires Passed(h0, scope, Created(s, src, b, NewBlock(ClassOf(h0, src))), src, b,
                    ObjectLeaves(ClassOf(h0, src), 0))
    ensures CreatedPassed(h0, scope, s, src)
  {
    hide Passed, NewBlock, ObjectLeaves;
  }

  lemma ResizedFacts(s: State, sr: Ref, db: nat, o: int, n: nat)
    requires Filling(s, sr, db) && db in s.heap && o in s.heap[db].items && sr.At? && sr.block in s.heap
    ensures Filling(Resized(s, db, o, n), sr, db)
    ensures db in Resized(s, db, o, n).heap && o in Resized(s, db, o, n).heap[db].items
    ensures sr.block in Resized(s, db, o, n).heap
    ensures sr.block != db ==> Resized(s, db, o, n).heap[sr.block] == s.heap[sr.block]
  {
  }

  lemma KeysFacts(s: State, sr: Ref, db: nat, o: int)
    requires Filling(s, sr, db) && db in s.heap && sr.At? && sr.block in s.heap
    ensures Filling(KeysStored(s, db, o, []), sr, db)
    ensures sr.block != db ==> KeysStored(s, db, o, []).heap[sr.block] == s.heap[sr.block]
  {
  }

  lemma MaxBlock(s: set<nat>) returns (m: nat)
    ensures forall b | b in s :: b < m
  {
    m := 0;
    var rest := s;
    while rest != {}
      invariant rest <= s
      invariant forall b | b in s && b !in rest :: b < m
    {
      var b :| b in rest;
      rest := rest - {b};
      m := if b < m then m else b + 1;
    }
  }

  lemma EmptyingFacts(h0: Heap, scope: set<Ref>, s: State, t: State, sr: Ref, db: nat, o: int, n: nat)
    requires Inv(h0, scope, t) && Filling(s, sr, db) && Emptying(s, t, db, o, n)
    ensures Filling(t, sr, db) && db in t.heap && o in t.heap[db].items && |t.heap[db].items[o]| == n
    ensures db in s.heap && o in s.heap[db].items && n <= |s.heap[db].items[o]|
    ensures n > 0 ==> t.heap[db].items[o][n - 1] == s.heap[db].items[o][n - 1]
    ensures n > 0 && t.heap[db].items[o][n - 1] != Null ==>
              IsLive(t, t.heap[db].items[o][n - 1]) && t.heap[db].items[o][n - 1].block in t.heap
  {
    hide ObjectLeaves, Tidy, Accounted, Drained, Spared, CloneBlockOk, OthersKept, Live;
    InvFacts(h0, scope, t);
    ItemsAreLive(Live(t.origin, t.into), t.heap[db], o);
  }

  lemma ItemsAreLive(live: set<nat>, b: Block, o: int)
    requires CloneBlockOk(live, b) && o in b.items
    ensures forall i | 0 <= i < |b.items[o]| :: RefOk(live, b.items[o][i])
  {
  }

  lemma EmptyingSize(s: State, t: State, db: nat, o: int, n: nat)
    requires Emptying(s, t, db, o, n)
    ensures db in t.heap && o in t.heap[db].items && |t.heap[db].items[o]| == n
  {
  }

  lemma MemoLeadsTo(h0: Heap, scope: set<Ref>, s: State, r: Ref)
    requires Inv(h0, scope, s) && IsClone(s, r)
    ensures s.origin[r.block] in s.memo && s.memo[s.origin[r.block]] == r
  {
    assert MemoOk(h0, scope, s);
  }

  ghost predicate LastIsLive(s: State, db: nat, o: int)
    requires db in s.heap && o in s.heap[db].items && s.heap[db].items[o] != []
  {
    var r := s.heap[db].items[o][|s.heap[db].items[o]| - 1];
    r == Null || (IsLive(s, r) && r.block in s.heap)
  }

  lemma PoppedLocks(s: State, db: nat, o: int, r: Ref)
    requires db in s.heap && o in s.heap[db].items && s.heap[db].items[o] != [] && r != Null
    requires r == s.heap[db].items[o][|s.heap[db].items[o]| - 1] && r.block in s.heap
    ensures r in ItemPopped(s, db, o).pending && r.block in ItemPopped(s, db, o).heap
    ensures ItemPopped(s, db, o).heap[r.block].locks == s.heap[r.block].locks
  {
  }

  /** The objects that existed before on the side of the destination. */
  function Existing(into: Into): set<nat> {
    into.others + if into.top.Some? then {into.top.value} else {}
  }

  /** The locks on objects that no cell accounts for. */
  ghost function OuterLocks(h: Heap, bs: set<nat>): multiset<Ref> {
    if bs == {} then multiset{} else
      var b :| b in bs;
      var n := if b in h then h[b].locks - InDegree(h, At(b, 0)) else 0;
      OuterLocks(h, bs - {b})[At(b, 0) := if n < 0 then 0 else n]
  }

  /** Before the copy: an empty map, and nothing held but by the outside. */
  ghost function Start(h: Heap, into: Into, source: Ref): State {
    State(h, map[], if into.top.Some? then map[into.top.value := source] else map[], {},
          OuterLocks(h, Existing(into)), into)
  }

  lemma StartEmpty(h: Heap, source: Ref)
    ensures Start(h, Nothing, source) == Empty(h)
  {
    assert Existing(Nothing) == {};
  }

  /** A clone that is being filled is copied without a clash. */
  lemma NeverClashes(h0: Heap, scope: set<Ref>, s: State, src: Ref, b: nat)
    requires IsHeapObject(h0, src) && Fillable(h0, s, src, b, ObjectLeaves(ClassOf(h0, src), 0))
    requires IsClone(s, At(b, 0))
    ensures b in s.heap
    ensures !Clash(h0[src.block], s.heap[b], ObjectLeaves(ClassOf(h0, src), 0))
  {
    hide ObjectLeaves, Fillable;
    FillableBlock(h0, s, src, b, ObjectLeaves(ClassOf(h0, src), 0));
    NoClash(h0, s, src, b, ObjectLeaves(ClassOf(h0, src), 0));
  }

  /** Whether the leaves copied next clash is whether they did from the start. */
  lemma ClashNext(h0: Heap, s0: State, s: State, t: State, sr: Ref, db: nat, copied: seq<Leaf>, next: seq<Leaf>,
          rest: seq<Leaf>)
    requires sr.At? && sr.block in h0 && Progress(h0[sr.block], s0, s, db, copied, multiset{})
    requires !Clash(h0[sr.block], s0.heap[db], copied)
    ensures Clash(h0[sr.block], s.heap[db], next) <==> Clash(h0[sr.block], s0.heap[db], copied + next)
    ensures Clash(h0[sr.block], s0.heap[db], copied + next) ==>
              Clash(h0[sr.block], s0.heap[db], copied + (next + rest))
    ensures Outside(s, t, db) ==> Outside(s0, t, db)
  {
    hide Progress, Clash, Outside;
    ProgressOutside(h0[sr.block], s0, s, db, copied);
    ClashKept(h0[sr.block], s0, s, db, copied, next);
    ClashSplit(h0[sr.block], s0.heap[db], copied + next, rest);
    assert copied + (next + rest) == (copied + next) + rest;
    if Outside(s, t, db) { OutsideTrans(s0, s, t, db); }
  }

  class Copier {
    var heap: Heap
    var pointers: map<Ref, Ref>
    var level: int
    var destroyed: Option<Ref>
    const into: Into

    ghost var clones: map<Ref, Ref>
    ghost var origin: map<nat, Ref>
    ghost var done: set<Ref>
    ghost var pending: multiset<Ref>

    constructor (h: Heap, into: Into, ghost source: Ref)
      ensures heap == h && pointers == map[] && level == 0 && destroyed == None && this.into == into
      ensures Now() == Start(h, into, source)
    {
      this.into := into;
      heap, pointers, level, destroyed := h, map[], 0, None;
      clones, origin, done := map[], if into.top.Some? then map[into.top.value := source] else map[], {};
      pending := OuterLocks(h, Existing(into));
    }

    ghost function Now(): State
      reads this
    {
      State(heap, clones, origin, done, pending, into)
    }

    ghost predicate Ready(h0: Heap, scope: set<Ref>)
      reads this
    {
      && SourceOk(h0) && Closed(h0, scope) && Inv(h0, scope, Now())
      && pointers == clones && level >= 0 && destroyed == None
    }

    /** A clone that the map still leads to has lost its last lock. */
    ghost predicate Lost()
      reads this
    {
      && destroyed.Some? && destroyed.value.At?
      && destroyed.value.block in heap && heap[destroyed.value.block].locks <= 0
      && exists r :: r in pointers && pointers[r] == destroyed.value
    }

    method Lock(r: Ref)
      requires r.At? && r.block in heap
      modifies this`heap, this`pending
      ensures Now() == Locked(old(Now()), r)
    {
      heap := WithLocks(heap, r.block, heap[r.block].locks + 1);
      pending := pending + multiset{r};
    }

    /** The last lock destroys the object. What an object of the destination does then is not modelled. */
    method Unlock(r: Ref)
      requires r.At? && r.block in heap
      modifies this`heap, this`pending, this`destroyed
      ensures Now() == Unlocked(old(Now()), r)
      ensures destroyed ==
              if old(heap[r.block].locks) <= 1 && r.block !in into.others then Some(r) else old(destroyed)
    {
      heap := WithLocks(heap, r.block, heap[r.block].locks - 1);
      pending := pending - multiset{r};
      if heap[r.block].locks <= 0 && r.block !in into.others {
        destroyed := Some(r);
      }
    }

    method CreateInstance(cls: ClassInfo) returns (r: Ref)
      modifies this`heap
      ensures r.At? && r.off == 0 && r.block !in old(heap)
      ensures heap == old(heap)[r.block := NewBlock(cls)]
    {
      ghost var m := MaxBlock(heap.Keys);
      assert m !in heap.Keys;
      var b: nat :| b !in heap;
      heap := heap[b := NewBlock(cls)];
      r := At(b, 0);
    }

    /** Queries the held reference into a pointer cell and drops the smart pointer that held it. */
    method StorePtr(db: nat, o: int, tmp: Ref, ghost h0: Heap, ghost scope: set<Ref>, ghost sr: Ref)
      requires Inv(h0, scope, Now()) && Filling(Now(), sr, db)
      requires db in heap && o in heap[db].ptrs && heap[db].ptrs[o] == Null
      requires IsClone(Now(), tmp) && tmp in pending && HasLeaf(h0, sr, PtrLeaf(o))
      modifies this`heap, this`pending, this`destroyed
      ensures destroyed == old(destroyed)
      ensures Now() == PtrStored(old(Now()), db, o, tmp) && Inv(h0, scope, Now())
    {
      hide Inv, InDegree, Filling, HasLeaf, PtrStored;
      HeldHasLock(h0, scope, Now(), tmp);
      PtrStoredKeeps(h0, scope, Now(), sr, db, o, tmp);
      StoredPtr(Now(), db, o, tmp);
      Lock(tmp);
      heap := WithPtr(heap, db, o, tmp);
      pending := pending - multiset{tmp};
      Unlock(tmp);
    }

    /** Takes what a pointer cell holds out of it. */
    method ClearPtr(db: nat, o: int) returns (was: Ref)
      requires db in heap && o in heap[db].ptrs
      modifies this`heap, this`pending
      ensures was == old(heap[db].ptrs[o]) && Now() == PtrStored(old(Now()), db, o, Null)
    {
      was := heap[db].ptrs[o];
      heap := WithPtr(heap, db, o, Null);
      pending := pending + Held(was);
    }

    /** Stores the held reference and releases what the cell held before. */
    method ReplacePtr(db: nat, o: int, tmp: Ref, was: Ref, ghost h0: Heap, ghost scope: set<Ref>, ghost sr: Ref)
      requires Inv(h0, scope, Now()) && Filling(Now(), sr, db)
      requires db in heap && o in heap[db].ptrs && heap[db].ptrs[o] == Null
      requires IsClone(Now(), tmp) && tmp in pending && HasLeaf(h0, sr, PtrLeaf(o))
      requires was == Null || Droppable(Now(), was, tmp)
      modifies this`heap, this`pending, this`destroyed
      ensures destroyed == old(destroyed) && Inv(h0, scope, Now())
      ensures Now() == if was == Null then PtrStored(old(Now()), db, o, tmp)
                       else Unlocked(PtrStored(old(Now()), db, o, tmp), was)
    {
      hide Inv, InDegree, HasLeaf, Filling;
      ghost var s := Now();
      StorePtr(db, o, tmp, h0, scope, sr);
      if was != Null {
        if was == tmp { PointerHeldTwice(h0, scope, s, Now(), db, o, was); }
        UnlockKeeps(h0, scope, Now(), was);
        Unlock(was);
      }
    }

    method StoreItem(db: nat, o: int, i: nat, tmp: Ref, ghost h0: Heap, ghost scope: set<Ref>, ghost sr: Ref)
      requires Inv(h0, scope, Now()) && Filling(Now(), sr, db)
      requires db in heap && o in heap[db].items && i < |heap[db].items[o]| && heap[db].items[o][i] == Null
      requires IsClone(Now(), tmp) && tmp in pending && HasContainer(h0, sr, o)
      modifies this`heap, this`pending, this`destroyed
      ensures destroyed == old(destroyed)
      ensures Now() == ItemStored(old(Now()), db, o, i, tmp) && Inv(h0, scope, Now())
    {
      hide Inv, InDegree, Filling, HasContainer, ItemStored;
      HeldHasLock(h0, scope, Now(), tmp);
      ItemStoredKeeps(h0, scope, Now(), sr, db, o, i, tmp);
      StoredItem(Now(), db, o, i, tmp);
      var stored := heap[db].items[o][i := tmp];
      Lock(tmp);
      heap := WithItems(heap, db, o, stored);
      pending := pending - multiset{tmp};
      Unlock(tmp);
    }

    /** Makes room for the items of an empty list. */
    method Resize(db: nat, o: int, n: nat)
      requires db in heap && o in heap[db].items && heap[db].items[o] == []
      modifies this`heap
      ensures Now() == Resized(old(Now()), db, o, n)
    {
      heap := WithItems(heap, db, o, seq(n, _ => Null));
    }

    /** Adds a dict entry that takes over the reference held to its value. */
    method InsertEntry(db: nat, o: int, key: string, value: Ref)
      requires db in heap && o in heap[db].items && o in heap[db].keys
      modifies this`heap, this`pending
      ensures Now() == KeysStored(ItemAppended(old(Now()), db, o, value), db, o, old(heap[db].keys[o]) + [key])
    {
      var keys := heap[db].keys[o] + [key];
      heap := WithItems(heap, db, o, heap[db].items[o] + [value]);
      heap := WithKeys(heap, db, o, keys);
      pending := pending - Held(value);
    }

    // ---------- the copy ----------

    /** Hands out the clone made earlier, with one more lock on it. */
    method Remembered(source: Ref, ghost h0: Heap, ghost scope: set<Ref>) returns (dest: Ref)
      requires Inv(h0, scope, Now()) && pointers == clones && source in pointers
      modifies this`heap, this`pending
      ensures Inv(h0, scope, Now()) && Handed(old(Now()), Now(), source, dest)
    {
      hide Inv, Handed;
      dest := pointers[source];
      MemoFacts(h0, scope, Now(), source);
      LockKeeps(h0, scope, Now(), dest);
      HitHanded(Now(), source);
      Lock(dest);
    }

    /** Creates an empty clone and remembers it before anything is copied into it. */
    method Create(source: Ref, ghost h0: Heap, ghost scope: set<Ref>) returns (dest: Ref)
      requires Ready(h0, scope) && source !in pointers && IsHeapObject(h0, source) && source in scope
      modifies this`heap, this`pointers, this`clones, this`origin, this`pending
      ensures dest.At? && dest.off == 0 && dest.block !in old(heap)
      ensures Now() == Created(old(Now()), source, dest.block, NewBlock(ClassOf(h0, source)))
      ensures Ready(h0, scope) && IsObject(heap, dest) && ClassOf(heap, dest) == ClassOf(h0, source)
      ensures Fillable(h0, Now(), source, dest.block, ObjectLeaves(ClassOf(h0, source), 0))
      ensures IsClone(Now(), dest)
      ensures Room(h0, clones) < Room(h0, old(clones))
    {
      hide Inv, Fillable, SourceOk, Closed, NewBlock;
      ghost var before := Now();
      SourceFacts(h0, scope, before, source);
      dest := CreateInstance(ClassOf(heap, source));
      ghost var b := dest.block;
      FreshFacts(h0, scope, before, b);
      UndoneFacts(h0, scope, before, source);
      CreatedKeeps(h0, scope, before, source, b);
      CreatedFillable(h0, scope, before, source, b);
      CreatedFacts(h0, before, source, b, ClassOf(h0, source));
      RoomTaken(h0, clones, source, dest);
      MemoFacts(h0, scope, Created(before, source, b, NewBlock(ClassOf(h0, source))), source);
      pointers := pointers[source := dest];
      clones, origin, pending := clones[source := dest], origin[b := source], pending + multiset{dest};
    }

    /** Takes the last item off a container and releases it. */
    method TakeLast(db: nat, o: int, ghost h0: Heap, ghost scope: set<Ref>, ghost sr: Ref) returns (tmp: Ref)
      requires Inv(h0, scope, Now()) && pointers == clones && destroyed == None
      requires Filling(Now(), sr, db) && HasContainer(h0, sr, o)
      requires db in heap && o in heap[db].items && heap[db].items[o] != [] && LastIsLive(Now(), db, o)
      modifies this`heap, this`pending, this`destroyed
      ensures tmp == old(heap[db].items[o][|heap[db].items[o]| - 1])
      ensures Now() == Released(old(Now()), db, o) && Inv(h0, scope, Now())
      ensures destroyed ==
              if tmp.At? && tmp.block !in into.others && old(heap)[tmp.block].locks <= 1 then Some(tmp) else None
      ensures destroyed.Some? ==> Lost()
    {
      hide Inv, HasContainer, Filling;
      ghost var s := Now();
      var last := |heap[db].items[o]| - 1;
      tmp := heap[db].items[o][last];
      ItemPoppedKeeps(h0, scope, s, sr, db, o);
      heap := WithItems(heap, db, o, heap[db].items[o][..last]);
      pending := pending + Held(tmp);
      assert Now() == ItemPopped(s, db, o);
      if tmp != Null {
        PoppedLocks(s, db, o, tmp);
        UnlockKeeps(h0, scope, Now(), tmp);
        if tmp.block !in into.others { MemoLeadsTo(h0, scope, s, tmp); }
        Unlock(tmp);
        assert destroyed.Some? ==> pointers[origin[tmp.block]] == tmp;
      }
    }

    /** Takes the items off from the back, releasing each: what Remove(-1) and clear() do. */
    method EmptyContainer(db: nat, o: int, ghost h0: Heap, ghost scope: set<Ref>, ghost sr: Ref)
      requires Inv(h0, scope, Now()) && pointers == clones && destroyed == None
      requires Filling(Now(), sr, db) && HasContainer(h0, sr, o) && db in heap && o in heap[db].items
      modifies this`heap, this`pending, this`destroyed
      ensures destroyed.Some? <==> Loses(old(Now()), db, o)
      ensures destroyed.Some? ==> Lost()
      ensures destroyed.None? ==> Inv(h0, scope, Now()) && Emptied(old(Now()), Now(), db, o)
    {
      hide Inv, Emptying, HasContainer, Emptied, Loses, LosesBlock, Released, Filling, Lost;
      ghost var s := Now();
      ghost var n: nat := |heap[db].items[o]|;
      EmptyingStarts(s, db, o);
      while |heap[db].items[o]| > 0
        invariant Inv(h0, scope, Now()) && Emptying(s, Now(), db, o, n) && destroyed == None
        invariant db in heap && o in heap[db].items && |heap[db].items[o]| == n
        decreases n
      {
        ghost var t := Now();
        EmptyingFacts(h0, scope, s, t, sr, db, o, n);
        EmptyingStep(s, t, db, o, n);
        var tmp := TakeLast(db, o, h0, scope, sr);
        if destroyed.Some? {
          LosesFacts(s, db, o, tmp.block);
          return;
        }
        EmptyingSize(s, Now(), db, o, n - 1);
        n := n - 1;
      }
      EmptyingEnds(s, Now(), db, o);
    }

    /**
     Copies `source`. Without a destination, a clone is created, or the one created earlier is handed
     out again. With one, `source` and `dest0` are embedded at the same place of a source and its clone, or
     they are, or are embedded in, the source and the destination of the whole copy; that fails when a
     pointer is null in the source only, and stops there.
     */
    method CopyTo(source: Ref, dest0: Ref, ghost h0: Heap, ghost scope: set<Ref>, ghost sr: Ref)
      returns (ok: bool, dest: Ref)
      requires Ready(h0, scope) && IsObject(heap, source) && (level == 0 ==> pointers == map[])
      requires dest0 == Null ==> IsHeapObject(h0, source) && source in scope
      requires dest0 != Null ==> IsObject(heap, dest0)
      requires dest0 != Null && ClassOf(heap, source).clsid == ClassOf(heap, dest0).clsid ==>
                 && ClassOf(heap, source) == ClassOf(heap, dest0) && sr.At? && sr.block in h0
                 && source == At(sr.block, dest0.off)
                 && Fillable(h0, Now(), sr, dest0.block, ObjectLeaves(ClassOf(heap, dest0), dest0.off))
      modifies this
      ensures destroyed.Some? ==> Lost()
      ensures destroyed.None? ==> level == old(level) && Inv(h0, scope, Now())
      ensures dest0 == Null && destroyed.None? ==>
                && ok && Handed(old(Now()), Now(), source, dest)
                && pointers == (if level == 0 then map[] else clones)
                && (source in old(clones) || CreatedPassed(h0, scope, old(Now()), source))
      ensures dest0 == Null && AllDistinct(h0, scope) ==> destroyed.None?
      ensures dest0 != Null && old(ClassOf(heap, source).clsid == ClassOf(heap, dest0).clsid) && destroyed.None? ==>
                && dest == dest0 && pointers == (if ok && level == 0 then map[] else clones)
                && CopyResult(h0, scope, old(Now()), sr, dest0.block,
                              old(ObjectLeaves(ClassOf(heap, dest0), dest0.off)), ok)
      ensures dest0 != Null && old(ClassOf(heap, source).clsid == ClassOf(heap, dest0).clsid)
                && AllDistinct(h0, scope)
                && Unfilled(into.others, old(heap[dest0.block]), old(ObjectLeaves(ClassOf(heap, dest0), dest0.off))) ==>
                destroyed.None?
      ensures dest0 != Null && old(ClassOf(heap, source).clsid != ClassOf(heap, dest0).clsid) ==>
                !ok && Now() == old(Now()) && pointers == old(pointers) && destroyed.None?
      decreases Room(h0, clones), if dest0 == Null then 0 else 2, ClassOf(heap, source), 4
    {
      hide Inv, Fillable, Progress, Handed, SourceOk, Closed, NewBlock, ObjectLeaves, Room, AllDistinct, Unfilled,
           Passed, CreatedPassed, Clash, Outside, Filling, Lost, IsClone;
      ghost var before := Now();
      dest := dest0;
      if dest == Null {
        if source in pointers {
          dest := Remembered(source, h0, scope);
          return true, dest;
        }
        dest := Create(source, h0, scope);
        ghost var created := Now();
        level := level + 1;
        ok := CopyToInternal(source, dest, h0, scope, source);
        CreatedUnfilled(h0, scope, source, into.others, created.heap, dest.block);
        if destroyed.Some? {
          return;
        }
        level := level - 1;
        NeverClashes(h0, scope, created, source, dest.block);
        Finish(h0, scope, before, created, Now(), source, dest.block, ClassOf(h0, source));
        CreationPassed(h0, scope, before, source, dest.block);
        done := done + {source};
      } else {
        if ClassOf(heap, source).clsid != ClassOf(heap, dest).clsid {
          return false, dest;
        }
        level := level + 1;
        ok := CopyToInternal(source, dest, h0, scope, sr);
        if destroyed.Some? {
          return;
        }
        level := level - 1;
        if !ok {
          return false, dest;
        }
      }
      if level == 0 {
        pointers := map[];
      }
    }

    /** The leaves were copied, and no container was emptied with a loss. */
    ghost predicate Copied(h0: Heap, scope: set<Ref>, s0: State, sr: Ref, db: nat, ls: seq<Leaf>)
      reads this
    {
      && sr.At? && sr.block in h0
      && Progress(h0[sr.block], s0, Now(), db, ls, multiset{})
      && Passed(h0, scope, s0, sr, db, ls)
    }

    /**
     The copy succeeds unless it meets a pointer that is null in the source only. Then it stops, but what
     was cloned before stays complete and nothing is held.
     */
    ghost predicate CopyResult(h0: Heap, scope: set<Ref>, s0: State, sr: Ref, db: nat, ls: seq<Leaf>, ok: bool)
      reads this
    {
      && sr.At? && sr.block in h0 && db in s0.heap
      && (ok <==> !Clash(h0[sr.block], s0.heap[db], ls))
      && (ok ==> Copied(h0, scope, s0, sr, db, ls))
      && (!ok ==> Outside(s0, Now(), db))
    }

    /**
     Clones the target of a pointer member and stores it. A null source fails, after what the cell held
     is released.
     */
    method CopyPointer(sb: nat, db: nat, o: int, ghost h0: Heap, ghost scope: set<Ref>, ghost sr: Ref)
      returns (ok: bool)
      requires Ready(h0, scope) && level > 0 && sr.At? && sr.block == sb
      requires Fillable(h0, Now(), sr, db, [PtrLeaf(o)])
      requires sb in heap && db in heap && o in heap[sb].ptrs && o in heap[db].ptrs
      modifies this
      ensures destroyed.Some? ==> Lost()
      ensures AllDistinct(h0, scope) ==> destroyed.None?
      ensures destroyed.None? ==> level == old(level) && Inv(h0, scope, Now()) && pointers == clones
      ensures destroyed.None? ==> (ok <==> old(heap[sb].ptrs[o]) != Null)
      ensures destroyed.None? && ok ==> Copied(h0, scope, old(Now()), sr, db, [PtrLeaf(o)])
      ensures old(heap[db].ptrs[o]).At? ==> old(heap[db].ptrs[o]).block in old(heap)
      ensures destroyed.None? && !ok ==> Now() == Cleared(old(Now()), db, o)
      decreases Room(h0, clones), 1
    {
      hide Inv, Fillable, Progress, Handed, SourceOk, Closed, InDegree, Room, AllDistinct, Passed, HasLeaf, PtrStored,
           Unlocked, CreatedPassed, Unfilled, PtrReady, Filling, ObjectLeaves;
      ghost var s0 := Now();
      PointerCleared(h0, scope, s0, sr, db, o);
      PointerLeaf(h0, s0, sr, db, o);
      PassedNoContainer(h0, scope, s0, sr, db, [PtrLeaf(o)]);
      var target := heap[sb].ptrs[o];
      var was := ClearPtr(db, o);
      ghost var s1 := Now();
      if target == Null {
        if was != Null {
          UnlockKeeps(h0, scope, s1, was);
          Unlock(was);
        }
        return false;
      }
      var tmp;
      ok, tmp := CopyTo(target, Null, h0, scope, sr);
      if destroyed.Some? {
        return;
      }
      ghost var s2 := Now();
      PointerCloned(h0, scope, s0, s1, s2, sr, db, o, target, tmp);
      ReplacePtr(db, o, tmp, was, h0, scope, sr);
      PointerFinished(h0[sb], s0, s1, s2, Now(), db, o, target, tmp, was);
    }

    /** The list's AssignTo: empties the list, makes room for all items and clones them one by one. */
    method AssignList(sb: nat, db: nat, o: int, ghost h0: Heap, ghost scope: set<Ref>, ghost sr: Ref)
      requires Ready(h0, scope) && level > 0 && sr.At? && sr.block == sb
      requires Fillable(h0, Now(), sr, db, [ListLeaf(o)])
      requires sb in heap && db in heap && o in heap[sb].items && o in heap[db].items
      modifies this
      ensures destroyed.Some? ==> Lost()
      ensures AllDistinct(h0, scope) ==> (destroyed.Some? <==> Loses(old(Now()), db, o))
      ensures destroyed.None? ==> level == old(level) && Inv(h0, scope, Now()) && pointers == clones
      ensures destroyed.None? ==> Copied(h0, scope, old(Now()), sr, db, [ListLeaf(o)])
      decreases Room(h0, clones), 1
    {
      hide Inv, Fillable, Progress, Handed, SourceOk, Closed, InDegree, Room, ListPartial, ItemsCopied, LeafPresent,
           AllDistinct, Passed, HasContainer, Loses, Emptied, Filling, Resized, ItemStored, CreatedPassed, Unfilled,
           ObjectLeaves;
      ghost var s0 := Now();
      ContainerFacts(h0, scope, s0, sr, db, ListLeaf(o));
      EmptyContainer(db, o, h0, scope, sr);
      if destroyed.Some? {
        return;
      }
      PassedContainer(h0, scope, s0, sr, db, ListLeaf(o));
      ghost var e := Now();
      EmptiedFacts(h0, scope, s0, e, sr, db, o);
      var n := |heap[sb].items[o]|;
      ListStart(h0[sb], s0, e, db, o);
      Resize(db, o, n);
      ResizedFacts(e, sr, db, o, n);
      for i := 0 to n
        invariant destroyed == None
        invariant Inv(h0, scope, Now()) && Filling(Now(), sr, db) && pointers == clones && level == old(level)
        invariant sb in heap && heap[sb] == h0[sb] && db in heap && o in heap[db].items && o in h0[sb].items
        invariant ListPartial(h0[sb], s0, Now(), db, o, i)
      {
        ghost var s1 := Now();
        ListNext(h0, scope, s0, s1, sr, db, o, i);
        var ok, tmp := CopyTo(heap[sb].items[o][i], Null, h0, scope, sr);
        if destroyed.Some? {
          return;
        }
        ListCloned(h0, scope, s0, s1, Now(), sr, db, o, i, tmp);
        StoreItem(db, o, i, tmp, h0, scope, sr);
      }
      ListEnd(h0[sb], s0, Now(), db, o);
    }

    /** The dict's AssignTo: clears it; each clone then goes in with the reference it came with. */
    method AssignDict(sb: nat, db: nat, o: int, ghost h0: Heap, ghost scope: set<Ref>, ghost sr: Ref)
      requires Ready(h0, scope) && level > 0 && sr.At? && sr.block == sb
      requires Fillable(h0, Now(), sr, db, [DictLeaf(o)])
      requires sb in heap && db in heap && o in heap[sb].items && o in heap[sb].keys
      requires o in heap[db].items && o in heap[db].keys
      modifies this
      ensures destroyed.Some? ==> Lost()
      ensures AllDistinct(h0, scope) ==> (destroyed.Some? <==> Loses(old(Now()), db, o))
      ensures destroyed.None? ==> level == old(level) && Inv(h0, scope, Now()) && pointers == clones
      ensures destroyed.None? ==> Copied(h0, scope, old(Now()), sr, db, [DictLeaf(o)])
      decreases Room(h0, clones), 1
    {
      hide Inv, Fillable, Progress, Handed, SourceOk, Closed, InDegree, Room, DictPartial, LeafPresent, Filling,
           ItemAppended, AllDistinct, Passed, HasContainer, Loses, Emptied, CreatedPassed, Unfilled, ObjectLeaves;
      ghost var s0 := Now();
      ContainerFacts(h0, scope, s0, sr, db, DictLeaf(o));
      EmptyContainer(db, o, h0, scope, sr);
      if destroyed.Some? {
        return;
      }
      PassedContainer(h0, scope, s0, sr, db, DictLeaf(o));
      ghost var e := Now();
      EmptiedFacts(h0, scope, s0, e, sr, db, o);
      DictStart(h0[sb], s0, e, db, o);
      heap := WithKeys(heap, db, o, []);
      assert Now() == KeysStored(e, db, o, []);
      KeysFacts(e, sr, db, o);
      var n := |heap[sb].items[o]|;
      for i := 0 to n
        invariant destroyed == None
        invariant Inv(h0, scope, Now()) && Filling(Now(), sr, db) && pointers == clones && level == old(level)
        invariant sb in heap && heap[sb] == h0[sb] && db in heap && o in h0[sb].items && o in h0[sb].keys
        invariant DictPartial(h0[sb], s0, Now(), db, o, i)
      {
        ghost var s1 := Now();
        DictNext(h0, scope, s0, s1, sr, db, o, i);
        var ok, tmp := CopyTo(heap[sb].items[o][i], Null, h0, scope, sr);
        if destroyed.Some? {
          return;
        }
        DictCloned(h0, scope, s0, s1, Now(), sr, db, o, i, tmp);
        InsertEntry(db, o, heap[sb].keys[o][i], tmp);
        FillingFacts(h0, scope, Now(), sr, db);
      }
      DictEnd(h0[sb], s0, Now(), db, o);
    }

    /** One entry of a member table: skipped unless persistent and different. */
    method CopyMember(sb: nat, db: nat, m: VarEntry, at: int, ghost cls: ClassInfo, ghost h0: Heap,
        ghost scope: set<Ref>, ghost sr: Ref) returns (ok: bool)
      requires Ready(h0, scope) && level > 0 && sr.At? && sr.block == sb
      requires sb in h0 && Fillable(h0, Now(), sr, db, EntryLeaves(m, at))
      requires m.varType.Root? ==> m.varType.cls < cls
      modifies this
      ensures destroyed.Some? ==> Lost()
      ensures db in old(heap)
      ensures AllDistinct(h0, scope) && Unfilled(into.others, old(heap[db]), EntryLeaves(m, at)) ==> destroyed.None?
      ensures destroyed.None? ==> level == old(level) && Inv(h0, scope, Now()) && pointers == clones
      ensures destroyed.None? ==> CopyResult(h0, scope, old(Now()), sr, db, EntryLeaves(m, at), ok)
      decreases Room(h0, clones), 2, cls, 1
    {
      hide Inv, Fillable, Progress, SourceOk, Closed, Room, ObjectLeaves, Filling, PtrReady, AllDistinct, Unfilled,
           Passed, Clash, Outside, Cleared;
      var o := at + m.offset;
      ghost var s0 := Now();
      FillableBlock(h0, s0, sr, db, EntryLeaves(m, at));
      LeafClash(h0[sb], heap[db], o);
      if !m.persist {
        NothingCopied(h0, scope, s0, sr, db, []);
        PassedNoContainer(h0, scope, s0, sr, db, []);
        return true;
      }
      match m.varType
      case Plain =>
        ValueCopied(h0, scope, s0, sr, db, o);
        PassedNoContainer(h0, scope, s0, sr, db, [ValueLeaf(o)]);
        if heap[sb].vals[o] != heap[db].vals[o] {
          heap := heap[db := heap[db].(vals := heap[db].vals[o := heap[sb].vals[o]])];
        }
        ok := true;
      case RootPtr =>
        PointerSkipped(h0, scope, s0, sr, db, o);
        if heap[sb].ptrs[o] == heap[db].ptrs[o] {
          PassedNoContainer(h0, scope, s0, sr, db, [PtrLeaf(o)]);
          return true;
        }
        ok := CopyPointer(sb, db, o, h0, scope, sr);
        if destroyed.None? && !ok { ClearedOutside(s0, db, o); }
      case Root(c) =>
        EmbeddedFacts(h0, scope, s0, sr, db, c, o);
        var dest;
        ok, dest := CopyTo(At(sb, o), At(db, o), h0, scope, sr);
    }

    /** One member table of the class chain. */
    method CopyTable(sb: nat, db: nat, ms: seq<VarEntry>, at: int, ghost cls: ClassInfo, ghost h0: Heap,
        ghost scope: set<Ref>, ghost sr: Ref) returns (ok: bool)
      requires Ready(h0, scope) && level > 0 && sr.At? && sr.block == sb
      requires sb in h0 && Fillable(h0, Now(), sr, db, TableLeaves(ms, at))
      requires forall m | m in ms && m.varType.Root? :: m.varType.cls < cls
      modifies this
      ensures destroyed.Some? ==> Lost()
      ensures db in old(heap)
      ensures AllDistinct(h0, scope) && Unfilled(into.others, old(heap[db]), TableLeaves(ms, at)) ==> destroyed.None?
      ensures destroyed.None? ==> level == old(level) && Inv(h0, scope, Now()) && pointers == clones
      ensures destroyed.None? ==> CopyResult(h0, scope, old(Now()), sr, db, TableLeaves(ms, at), ok)
      decreases Room(h0, clones), 2, cls, 2
    {
      hide Inv, Fillable, Progress, SourceOk, Closed, Room, EntryLeaves, TableLeaves, Grown, AllDistinct, Unfilled,
           Passed, Clash, Outside;
      ghost var s0 := Now();
      ghost var copied: seq<Leaf> := [];
      NothingCopied(h0, scope, s0, sr, db, TableLeaves(ms, at));
      FillableBlock(h0, s0, sr, db, TableLeaves(ms, at));
      NonPointerClash(h0[sb], heap[db], []);
      PassedNoContainer(h0, scope, s0, sr, db, []);
      for i := 0 to |ms|
        invariant destroyed == None
        invariant Inv(h0, scope, Now()) && pointers == clones && level == old(level)
        invariant Copied(h0, scope, s0, sr, db, copied) && db in s0.heap && db in heap
        invariant !Clash(h0[sb], s0.heap[db], copied)
        invariant Fillable(h0, Now(), sr, db, TableLeaves(ms[i..], at))
        invariant Unfilled(into.others, s0.heap[db], TableLeaves(ms, at)) ==>
                    Unfilled(into.others, heap[db], TableLeaves(ms[i..], at))
        invariant copied + TableLeaves(ms[i..], at) == TableLeaves(ms, at)
      {
        ghost var s1 := Now();
        ghost var entry, rest := EntryLeaves(ms[i], at), TableLeaves(ms[i..][1..], at);
        NextEntry(h0, s1, sr, db, ms[i..], at);
        RoomShrunk(h0, s0, s1, sr, db, copied);
        if Unfilled(into.others, s1.heap[db], entry + rest) { UnfilledSplit(into.others, s1.heap[db], entry, rest); }
        ok := CopyMember(sb, db, ms[i], at, cls, h0, scope, sr);
        if destroyed.Some? {
          return;
        }
        ClashNext(h0, s0, s1, Now(), sr, db, copied, entry, rest);
        if !ok {
          return false;
        }
        Advance(h0, s0, s1, Now(), sr, db, copied, entry, rest);
        PassedTrans(h0, scope, s0, s1, sr, db, copied, entry);
        FillableBlock(h0, Now(), sr, db, rest);
        if Unfilled(into.others, s1.heap[db], entry + rest) { UnfilledKept(h0[sb], s1, Now(), db, entry, rest); }
        copied := copied + entry;
        assert ms[i..][1..] == ms[i + 1..];
      }
      EmptyTable(at);
      assert ms[|ms|..] == [];
      assert copied == TableLeaves(ms, at);
      ok := true;
    }

    /** All tables of the class chain, then what the object copies by its own AssignTo. */
    method CopyToInternal(source: Ref, dest: Ref, ghost h0: Heap, ghost scope: set<Ref>, ghost sr: Ref)
      returns (ok: bool)
      requires Ready(h0, scope) && IsObject(heap, dest) && level > 0
      requires sr.At? && sr.block in h0 && source == At(sr.block, dest.off)
      requires Fillable(h0, Now(), sr, dest.block, ObjectLeaves(ClassOf(heap, dest), dest.off))
      modifies this
      ensures destroyed.Some? ==> Lost()
      ensures AllDistinct(h0, scope)
                && Unfilled(into.others, old(heap[dest.block]), old(ObjectLeaves(ClassOf(heap, dest), dest.off))) ==>
                destroyed.None?
      ensures destroyed.None? ==> level == old(level) && Inv(h0, scope, Now()) && pointers == clones
      ensures destroyed.None? ==>
                CopyResult(h0, scope, old(Now()), sr, dest.block,
                           old(ObjectLeaves(ClassOf(heap, dest), dest.off)), ok)
      decreases Room(h0, clones), 2, ClassOf(heap, dest), 3
    {
      hide Inv, Fillable, Progress, SourceOk, Closed, Room, ObjectLeaves, ChainLeaves, TableLeaves, CustomLeaves,
           RestOfChain, Grown, AllDistinct, Unfilled, Passed, Clash, Outside;
      ghost var s0 := Now();
      ok := true;
      var cls := ClassOf(heap, dest);
      var sb, db := source.block, dest.block;
      ghost var tail := CustomLeaves(cls, dest.off);
      ghost var copied := [ClassLeaf(dest.off, cls)];
      StartOfObject(h0, scope, s0, sr, db, cls, dest.off);
      PassedNoContainer(h0, scope, s0, sr, db, copied);
      NonPointerClash(h0[sb], heap[db], copied);
      UnfilledRest(h0[sb], s0, s0, db, copied, ChainLeaves(cls, dest.off) + tail);
      var t: Option<ClassInfo> := Some(cls);
      var at := dest.off;
      assert RestOfChain(t, at) == ChainLeaves(cls, at) by { ChainIs(t, at); }
      while t.Some?
        invariant destroyed == None
        invariant Inv(h0, scope, Now()) && pointers == clones && level == old(level)
        invariant Copied(h0, scope, s0, sr, db, copied) && db in s0.heap && db in heap
        invariant !Clash(h0[sb], s0.heap[db], copied)
        invariant Fillable(h0, Now(), sr, db, RestOfChain(t, at) + tail)
        invariant Unfilled(into.others, s0.heap[db], ObjectLeaves(cls, dest.off)) ==>
                    Unfilled(into.others, heap[db], RestOfChain(t, at) + tail)
        invariant copied + (RestOfChain(t, at) + tail) == ObjectLeaves(cls, dest.off)
        invariant WithinClass(t, cls)
        decreases t
      {
        ghost var s1 := Now();
        ghost var table, rest := TableLeaves(t.value.members, at),
             RestOfChain(t.value.parent, at + t.value.offsetToParent) + tail;
        NextTable(h0, s0, s1, sr, db, copied, t.value, at, tail);
        RoomShrunk(h0, s0, s1, sr, db, copied);
        if Unfilled(into.others, s1.heap[db], table + rest) { UnfilledSplit(into.others, s1.heap[db], table, rest); }
        ok := CopyTable(sb, db, t.value.members, at, cls, h0, scope, sr);
        if destroyed.Some? {
          return;
        }
        ClashNext(h0, s0, s1, Now(), sr, db, copied, table, rest);
        if !ok {
          return false;
        }
        Advance(h0, s0, s1, Now(), sr, db, copied, table, rest);
        PassedTrans(h0, scope, s0, s1, sr, db, copied, table);
        FillableBlock(h0, Now(), sr, db, rest);
        UnfilledRest(h0[sb], s1, Now(), db, table, rest);
        copied := copied + table;
        at := at + t.value.offsetToParent;
        t := t.value.parent;
      }
      ghost var s2 := Now();
      NonPointerClash(h0[sb], s2.heap[db], tail);
      ClashNext(h0, s0, s2, s2, sr, db, copied, tail, []);
      assert RestOfChain(t, at) == [] by { ChainIs(t, at); }
      assert RestOfChain(t, at) + tail == tail;
      assert tail + [] == tail;
      RoomShrunk(h0, s0, s2, sr, db, copied);
      CopyCustom(sb, db, cls, dest.off, h0, scope, sr);
      if destroyed.Some? {
        return;
      }
      Advance(h0, s0, s2, Now(), sr, db, copied, tail, []);
      PassedTrans(h0, scope, s0, s2, sr, db, copied, tail);
      assert copied + tail == ObjectLeaves(cls, dest.off);
      ok := true;
    }

    /** The custom assignment of the first container in the class chain, if there is one. */
    method CopyCustom(sb: nat, db: nat, cls: ClassInfo, at: int, ghost h0: Heap, ghost scope: set<Ref>, ghost sr: Ref)
      requires Ready(h0, scope) && level > 0 && sr.At? && sr.block == sb
      requires sb in h0 && Fillable(h0, Now(), sr, db, CustomLeaves(cls, at))
      modifies this
      ensures destroyed.Some? ==> Lost()
      ensures db in old(heap)
      ensures AllDistinct(h0, scope) && Unfilled(into.others, old(heap[db]), CustomLeaves(cls, at)) ==> destroyed.None?
      ensures destroyed.None? ==> level == old(level) && Inv(h0, scope, Now()) && pointers == clones
      ensures destroyed.None? ==> Copied(h0, scope, old(Now()), sr, db, CustomLeaves(cls, at))
      decreases Room(h0, clones), 2, cls, 1
    {
      hide Inv, Fillable, Progress, SourceOk, Closed, Room, AllDistinct, Unfilled, Passed, Loses;
      FillableBlock(h0, Now(), sr, db, CustomLeaves(cls, at));
      match cls.container
      case ListContainer =>
        ContainerFacts(h0, scope, Now(), sr, db, ListLeaf(at));
        UnfilledLosesNothing(Now(), db, ListLeaf(at));
        AssignList(sb, db, at, h0, scope, sr);
      case DictContainer =>
        ContainerFacts(h0, scope, Now(), sr, db, DictLeaf(at));
        UnfilledLosesNothing(Now(), db, DictLeaf(at));
        AssignDict(sb, db, at, h0, scope, sr);
      case NoContainer =>
        if cls.parent.Some? {
          CopyCustom(sb, db, cls.parent.value, at + cls.offsetToParent, h0, scope, sr);
        } else {
          NothingCopied(h0, scope, Now(), sr, db, []);
          PassedNoContainer(h0, scope, Now(), sr, db, []);
        }
    }
  }

  /**
   Cloning with a copier of its own: a clone, unless some container of the clone under way had to
   be emptied although a clone that the map still leads to had no lock but from there. That never
   happens when each class exposes each of its containers once.
   */
  method CloneTo(h: Heap, source: Ref) returns (heap: Heap, dest: Ref, pointers: map<Ref, Ref>, destroyed: Option<Ref>)
    requires SourceOk(h) && IsHeapObject(h, source)
    ensures destroyed.None? ==> exists memo :: IsCloneOf(h, source, heap, memo, dest)
    ensures destroyed.None? ==> CreatedPassed(h, ReachSet(h, source), Empty(h), source)
    ensures destroyed.Some? ==> StillMapped(heap, pointers, destroyed.value)
    ensures AllDistinct(h, ReachSet(h, source)) ==> destroyed.None?
  {
    hide IsCloneOf, Inv, Handed, SourceOk, Closed, AllDistinct, CreatedPassed, ReachSet;
    var copier := new Copier(h, Nothing, source);
    ReachSetClosed(h, source);
    StartInv(h, ReachSet(h, source));
    StartEmpty(h, source);
    SelfInReachSet(h, source);
    var ok;
    ok, dest := copier.CopyTo(source, Null, h, ReachSet(h, source), source);
    heap, pointers, destroyed := copier.heap, copier.pointers, copier.destroyed;
    if destroyed.None? {
      FinishedIsClone(h, source, copier.Now(), dest);
      assert IsCloneOf(h, source, heap, copier.clones, dest);
    }
  }

  /** An object that the map still leads to although it has no locks. */
  predicate StillMapped(heap: Heap, pointers: map<Ref, Ref>, r: Ref) {
    r.At? && r.block in heap && heap[r.block].locks <= 0 && r in pointers.Values
  }

  lemma SelfInReachSet(h: Heap, r: Ref)
    requires IsHeapObject(h, r)
    ensures r in ReachSet(h, r)
  {
    ReachesSelf(h, r);
  }
}

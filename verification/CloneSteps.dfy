/** Every elementary step of the copier keeps the clone invariant and makes the progress it should. */
module CloneSteps {
  import opened Basics
  import opened ObjectModel
  import opened Layout
  import opened References
  import opened CloneInvariant
  import opened CloneProgress

  // ---------- a new, empty instance ----------

  function ClassMap(ls: seq<Leaf>): map<int, ClassInfo> {
    if ls == [] then map[] else
      var rest := ClassMap(ls[..|ls| - 1]);
      match ls[|ls| - 1]
      case ClassLeaf(o, c) => rest[o := c]
      case _ => rest
  }

  /** A freshly created instance: null pointers, empty containers, one lock for its creator. */
  function NewBlock(cls: ClassInfo): Block {
    var ls := ObjectLeaves(cls, 0);
    var offs := set l | l in ls :: l.off;
    Block(
      ClassMap(ls),
      map o | o in offs :: 0,
      map o | o in offs :: Null,
      map o | o in offs :: [],
      map o | o in offs :: [],
      1)
  }

  lemma {:induction false} ClassMapAgrees(b: Block, ls: seq<Leaf>)
    requires LeavesPresent(b, ls)
    ensures forall o | o in ClassMap(ls) :: o in b.classes && ClassMap(ls)[o] == b.classes[o]
    ensures forall l | l in ls && l.ClassLeaf? :: l.off in ClassMap(ls)
  {
    if ls != [] {
      var front := ls[..|ls| - 1];
      assert LeafPresent(b, ls[|ls| - 1]);
      ClassMapAgrees(b, front);
      assert ls == front + [ls[|ls| - 1]];
    }
  }

  /** The new instance has a cell for every leaf of its class, as any instance of the class has. */
  lemma NewBlockPresent(b: Block, cls: ClassInfo)
    requires LeavesPresent(b, ObjectLeaves(cls, 0))
    ensures LeavesPresent(NewBlock(cls), ObjectLeaves(cls, 0))
    ensures 0 in NewBlock(cls).classes && NewBlock(cls).classes[0] == cls
  {
    var ls := ObjectLeaves(cls, 0);
    ClassMapAgrees(b, ls);
    forall l | l in ls ensures LeafPresent(NewBlock(cls), l) {
      assert LeafPresent(b, l);
    }
    assert ls[0] == ClassLeaf(0, cls);
    assert LeafPresent(NewBlock(cls), ls[0]);
  }

  // ---------- what the next leaves of a clone may rely on ----------

  /** The containers hold no clones. */
  ghost predicate Blank(others: set<nat>, b: Block, ls: seq<Leaf>) {
    forall l, i | l in ls && l.IsContainer() && l.off in b.items && 0 <= i < |b.items[l.off]| ::
      b.items[l.off][i] == Null || b.items[l.off][i].block in others
  }

  ghost predicate PtrsUnset(into: Into, db: nat, src: Block, b: Block, memo: map<Ref, Ref>, ls: seq<Leaf>) {
    forall l | l in ls && l.PtrLeaf? && l.off in b.ptrs && l.off in src.ptrs ::
      || b.ptrs[l.off] == Null || Corresponds(memo, src.ptrs[l.off], b.ptrs[l.off])
      || (into.top == Some(db) && b.ptrs[l.off].off == 0 && b.ptrs[l.off].block in into.others)
  }

  /** A pointer that is null in the source is not null in the destination: its copy fails. */
  ghost predicate Clash(src: Block, b: Block, ls: seq<Leaf>) {
    exists o :: PtrLeaf(o) in ls && o in src.ptrs && o in b.ptrs && src.ptrs[o] == Null && b.ptrs[o] != Null
  }

  /** Each container among the leaves occurs once, and holds no clone yet. */
  ghost predicate Unfilled(others: set<nat>, b: Block, ls: seq<Leaf>) {
    DistinctContainers(ls) && Blank(others, b, ls)
  }

  /** The leaves `ls` of `sr` may be copied into block `db`, a clone that is being filled. */
  ghost predicate Fillable(h0: Heap, s: State, sr: Ref, db: nat, ls: seq<Leaf>) {
    && Filling(s, sr, db) && db in s.heap
    && IsHeapObject(h0, sr)
    && (forall l | l in ls :: l in ObjectLeaves(ClassOf(h0, sr), 0))
    && LeavesPresent(s.heap[db], ls)
    && PtrsUnset(s.into, db, h0[sr.block], s.heap[db], s.memo, ls)
  }

  lemma FillableKept(h0: Heap, s: State, t: State, sr: Ref, db: nat, ls: seq<Leaf>, ks: seq<Leaf>)
    requires Fillable(h0, s, sr, db, ls + ks)
    requires Progress(h0[sr.block], s, t, db, ls, multiset{})
    ensures Fillable(h0, t, sr, db, ks)
  {
    forall l | l in ks
      ensures l in ObjectLeaves(ClassOf(h0, sr), 0) && LeafPresent(t.heap[db], l)
    {
      assert l in ls + ks;
      assert LeafPresent(s.heap[db], l);
    }
  }

  /** Copying the first of several distinct containers leaves the others empty. */
  lemma UnfilledKept(src: Block, s: State, t: State, db: nat, ls: seq<Leaf>, ks: seq<Leaf>)
    requires Progress(src, s, t, db, ls, multiset{}) && Unfilled(s.into.others, s.heap[db], ls + ks)
    ensures Unfilled(t.into.others, t.heap[db], ks)
  {
    SplitDistinct(ls, ks);
    forall l | l in ks && l.IsContainer() && l.off in t.heap[db].items
      ensures l.off in s.heap[db].items && t.heap[db].items[l.off] == s.heap[db].items[l.off] && l in ls + ks
    {
      assert l in ls + ks;
      assert !Touches(ls, l.off);
    }
  }

  lemma UnfilledSplit(others: set<nat>, b: Block, ls: seq<Leaf>, ks: seq<Leaf>)
    requires Unfilled(others, b, ls + ks)
    ensures Unfilled(others, b, ls)
  {
    SplitDistinct(ls, ks);
    forall l | l in ls ensures l in ls + ks {}
  }

  lemma NewBlockUnfilled(others: set<nat>, cls: ClassInfo)
    requires DistinctContainers(ObjectLeaves(cls, 0))
    ensures Unfilled(others, NewBlock(cls), ObjectLeaves(cls, 0))
  {
    hide ObjectLeaves, ClassMap;
  }

  lemma SplitDistinct(ls: seq<Leaf>, ks: seq<Leaf>)
    requires DistinctContainers(ls + ks)
    ensures DistinctContainers(ls) && DistinctContainers(ks)
    ensures forall l | l in ks && l.IsContainer() :: !Touches(ls, l.off)
  {
    forall i, j | 0 <= i < j < |ls| && ls[i].IsContainer() && ls[j].IsContainer() ensures ls[i].off != ls[j].off {
      assert (ls + ks)[i] == ls[i] && (ls + ks)[j] == ls[j];
    }
    forall i, j | 0 <= i < j < |ks| && ks[i].IsContainer() && ks[j].IsContainer() ensures ks[i].off != ks[j].off {
      assert (ls + ks)[|ls| + i] == ks[i] && (ls + ks)[|ls| + j] == ks[j];
    }
    forall i, j | 0 <= i < |ls| && 0 <= j < |ks| && ls[i].IsContainer() && ks[j].IsContainer()
      ensures ls[i].off != ks[j].off
    {
      assert (ls + ks)[i] == ls[i] && (ls + ks)[|ls| + j] == ks[j];
    }
  }

  lemma FillableSplit(h0: Heap, s: State, sr: Ref, db: nat, ls: seq<Leaf>, ks: seq<Leaf>)
    requires Fillable(h0, s, sr, db, ls + ks)
    ensures Fillable(h0, s, sr, db, ls)
  {
    forall l | l in ls ensures l in ls + ks {}
  }

  lemma ClashSplit(src: Block, b: Block, ls: seq<Leaf>, ks: seq<Leaf>)
    ensures Clash(src, b, ls + ks) <==> Clash(src, b, ls) || Clash(src, b, ks)
  {
    forall l ensures l in ls + ks <==> l in ls || l in ks {}
  }

  lemma NonPointerClash(src: Block, b: Block, ls: seq<Leaf>)
    requires forall l | l in ls :: !l.PtrLeaf?
    ensures !Clash(src, b, ls)
  {
  }

  lemma LeafClash(src: Block, b: Block, o: int)
    ensures !Clash(src, b, []) && !Clash(src, b, [ValueLeaf(o)])
    ensures o in src.ptrs && o in b.ptrs ==>
              (Clash(src, b, [PtrLeaf(o)]) <==> src.ptrs[o] == Null && b.ptrs[o] != Null)
  {
    assert PtrLeaf(o) in [PtrLeaf(o)];
  }

  /** Copying some pointers neither mends nor causes a clash at others. */
  lemma ClashKept(src: Block, s: State, t: State, db: nat, ls: seq<Leaf>, ks: seq<Leaf>)
    requires Progress(src, s, t, db, ls, multiset{}) && !Clash(src, s.heap[db], ls)
    ensures Clash(src, t.heap[db], ks) <==> Clash(src, s.heap[db], ls + ks)
  {
    ClashSplit(src, s.heap[db], ls, ks);
    var d, e := s.heap[db], t.heap[db];
    forall o | PtrLeaf(o) in ks && o in src.ptrs && src.ptrs[o] == Null && o in d.ptrs
      ensures d.ptrs[o] != Null <==> e.ptrs[o] != Null
    {}
  }

  /** A clone has no clash: its cells hold nothing, or what they are to hold. */
  lemma NoClash(h0: Heap, s: State, sr: Ref, db: nat, ls: seq<Leaf>)
    requires Fillable(h0, s, sr, db, ls) && s.into.top != Some(db)
    ensures !Clash(h0[sr.block], s.heap[db], ls)
  {
    hide ObjectLeaves, LeavesPresent;
  }

  // ---------- each step keeps the invariant ----------

  ghost predicate IsClone(s: State, r: Ref) {
    r.At? && r.off == 0 && r.block in s.origin && s.into.top != Some(r.block)
  }

  ghost predicate IsLive(s: State, r: Ref) {
    r.At? && r.off == 0 && r.block in Live(s.origin, s.into)
  }

  lemma InvFacts(h0: Heap, scope: set<Ref>, s: State)
    requires Inv(h0, scope, s)
    ensures Accounted(h0, s)
    ensures forall b | b in s.origin :: b in s.heap && b !in h0 && CloneBlockOk(Live(s.origin, s.into), s.heap[b])
    ensures forall b | b in s.origin :: IsHeapObject(h0, s.origin[b])
    ensures forall b | b in s.origin && s.into.top != Some(b) :: Tidy(ClassOf(h0, s.origin[b]), s.heap[b])
    ensures forall b | b in Live(s.origin, s.into) :: b in s.heap && b !in h0
  {
    hide Tidy, CloneBlockOk;
    forall b | b in s.origin ensures b in s.heap && b !in h0 && CloneBlockOk(Live(s.origin, s.into), s.heap[b]) {
      assert CloneOk(h0, s.origin, s.into, b, s.heap[b]);
    }
  }

  lemma LockKeeps(h0: Heap, scope: set<Ref>, s: State, r: Ref)
    requires Inv(h0, scope, s) && IsLive(s, r)
    ensures r.block in s.heap && Inv(h0, scope, Locked(s, r))
  {
    hide Inv, Accounted, Tidy;
    InvFacts(h0, scope, s);
    AccountedLocked(h0, s, r);
    LocksChanged(h0, scope, s, r.block, s.heap[r.block].locks + 1, s.pending + multiset{r});
  }

  lemma UnlockKeeps(h0: Heap, scope: set<Ref>, s: State, r: Ref)
    requires Inv(h0, scope, s) && IsLive(s, r) && r in s.pending
    ensures r.block in s.heap && Inv(h0, scope, Unlocked(s, r))
  {
    hide Inv, Accounted, Tidy;
    InvFacts(h0, scope, s);
    AccountedUnlocked(h0, s, r);
    LocksChanged(h0, scope, s, r.block, s.heap[r.block].locks - 1, s.pending - multiset{r});
  }

  lemma HeldHasLock(h0: Heap, scope: set<Ref>, s: State, r: Ref)
    requires Inv(h0, scope, s) && IsClone(s, r) && r in s.pending
    ensures r.block in s.heap && s.heap[r.block].locks >= 1 + InDegree(s.heap, r)
  {
    hide InDegree;
    assert MemoOk(h0, scope, s) && LocksOwed(h0, s);
    assert r == At(r.block, 0);
  }

  lemma PendingAt(p: multiset<Ref>, was: Ref, r: Ref, t: Ref)
    requires (r == Null || r in p) && t != Null
    ensures (p + Held(was) - Held(r))[t] == p[t] + One(was == t) - One(r == t)
  {
  }

  lemma PendingFrom(p: multiset<Ref>, was: Ref, r: Ref)
    ensures forall x | x in p + Held(was) - Held(r) && x !in p :: x == was
  {
  }

  lemma AccountedPtrStored(h0: Heap, s: State, db: nat, o: int, r: Ref)
    requires Accounted(h0, s) && db in s.heap && o in s.heap[db].ptrs && (r == Null || r in s.pending)
    requires s.heap[db].ptrs[o].At? ==> s.heap[db].ptrs[o].block in s.heap
    ensures Accounted(h0, PtrStored(s, db, o, r))
  {
    hide InDegree, HeldExist, Held;
    var t := PtrStored(s, db, o, r);
    PendingFrom(s.pending, s.heap[db].ptrs[o], r);
    HeldExistStored(h0, s, t);
    forall b | b in t.heap && b !in h0
      ensures t.heap[b].locks == InDegree(t.heap, At(b, 0)) + t.pending[At(b, 0)]
    {
      InDegreeWithPtr(s.heap, db, o, r, At(b, 0));
      PendingAt(s.pending, s.heap[db].ptrs[o], r, At(b, 0));
    }
  }

  lemma AccountedItemStored(h0: Heap, s: State, db: nat, o: int, i: nat, r: Ref)
    requires Accounted(h0, s) && db in s.heap && o in s.heap[db].items && i < |s.heap[db].items[o]|
        && (r == Null || r in s.pending)
    requires s.heap[db].items[o][i].At? ==> s.heap[db].items[o][i].block in s.heap
    ensures Accounted(h0, ItemStored(s, db, o, i, r))
  {
    hide InDegree, HeldExist, Held;
    var t := ItemStored(s, db, o, i, r);
    PendingFrom(s.pending, s.heap[db].items[o][i], r);
    HeldExistStored(h0, s, t);
    forall b | b in t.heap && b !in h0
      ensures t.heap[b].locks == InDegree(t.heap, At(b, 0)) + t.pending[At(b, 0)]
    {
      InDegreeWithItem(s.heap, db, o, i, r, At(b, 0));
      PendingAt(s.pending, s.heap[db].items[o][i], r, At(b, 0));
    }
  }

  lemma AccountedItemAppended(h0: Heap, s: State, db: nat, o: int, r: Ref)
    requires Accounted(h0, s) && db in s.heap && o in s.heap[db].items && (r == Null || r in s.pending)
    ensures Accounted(h0, ItemAppended(s, db, o, r))
  {
    hide InDegree, HeldExist;
    var t := ItemAppended(s, db, o, r);
    HeldExistStored(h0, s, t);
    forall b | b in t.heap && b !in h0
      ensures t.heap[b].locks == InDegree(t.heap, At(b, 0)) + t.pending[At(b, 0)]
    {
      InDegreeAppend(s.heap, db, o, r, At(b, 0));
    }
  }

  lemma AccountedResized(h0: Heap, s: State, db: nat, o: int, n: nat)
    requires Accounted(h0, s) && db in s.heap && o in s.heap[db].items && s.heap[db].items[o] == []
    ensures Accounted(h0, Resized(s, db, o, n))
  {
    hide InDegree, HeldExist;
    var t := Resized(s, db, o, n);
    HeldExistStored(h0, s, t);
    forall b | b in t.heap && b !in h0
      ensures t.heap[b].locks == InDegree(t.heap, At(b, 0)) + t.pending[At(b, 0)]
    {
      InDegreeResize(s.heap, db, o, n, At(b, 0));
    }
  }

  lemma AccountedSameCells(h0: Heap, s: State, t: State)
    requires Accounted(h0, s) && s.heap.Keys == t.heap.Keys && t.pending == s.pending
    requires forall b | b in s.heap ::
          s.heap[b].ptrs == t.heap[b].ptrs && s.heap[b].items == t.heap[b].items
          && s.heap[b].locks == t.heap[b].locks
    ensures Accounted(h0, t)
  {
    hide InDegree, HeldExist;
    HeldExistStored(h0, s, t);
    forall b | b in t.heap && b !in h0
      ensures t.heap[b].locks == InDegree(t.heap, At(b, 0)) + t.pending[At(b, 0)]
    {
      assert b in s.heap.Keys;
      InDegreeDependsOnCells(s.heap, t.heap, At(b, 0));
    }
  }

  lemma AccountedItemPopped(h0: Heap, s: State, db: nat, o: int)
    requires Accounted(h0, s) && db in s.heap && o in s.heap[db].items && s.heap[db].items[o] != []
    requires var r := s.heap[db].items[o][|s.heap[db].items[o]| - 1]; r.At? ==> r.block in s.heap
    ensures Accounted(h0, ItemPopped(s, db, o))
  {
    hide InDegree, HeldExist;
    var t := ItemPopped(s, db, o);
    HeldExistStored(h0, s, t);
    forall b | b in t.heap && b !in h0
      ensures t.heap[b].locks == InDegree(t.heap, At(b, 0)) + t.pending[At(b, 0)]
    {
      InDegreePop(s.heap, db, o, At(b, 0));
    }
  }

  ghost predicate HasLeaf(h0: Heap, sr: Ref, l: Leaf) {
    IsHeapObject(h0, sr) && l in ObjectLeaves(ClassOf(h0, sr), 0)
  }

  ghost predicate HasContainer(h0: Heap, sr: Ref, o: int) {
    IsHeapObject(h0, sr) && Touches(ObjectLeaves(ClassOf(h0, sr), 0), o)
  }

  lemma TidyPtr(cls: ClassInfo, b: Block, o: int, r: Ref)
    requires Tidy(cls, b) && PtrLeaf(o) in ObjectLeaves(cls, 0)
    ensures Tidy(cls, b.(ptrs := b.ptrs[o := r]))
  {
    hide ObjectLeaves;
  }

  lemma TidyItems(cls: ClassInfo, b: Block, o: int, rs: seq<Ref>)
    requires Tidy(cls, b) && Touches(ObjectLeaves(cls, 0), o)
    ensures Tidy(cls, b.(items := b.items[o := rs]))
  {
    hide ObjectLeaves, Touches;
  }

  lemma TidySameCells(cls: ClassInfo, b: Block, e: Block)
    requires Tidy(cls, b) && e.ptrs == b.ptrs && e.items == b.items
    ensures Tidy(cls, e)
  {
    hide ObjectLeaves, Touches;
  }

  lemma ItemPoppedKeeps(h0: Heap, scope: set<Ref>, s: State, sr: Ref, db: nat, o: int)
    requires Inv(h0, scope, s) && Filling(s, sr, db) && db in s.heap && o in s.heap[db].items
        && s.heap[db].items[o] != []
    requires HasContainer(h0, sr, o)
    ensures Inv(h0, scope, ItemPopped(s, db, o))
  {
    hide Inv, Accounted, Tidy;
    InvFacts(h0, scope, s);
    var n := |s.heap[db].items[o]| - 1;
    AccountedItemPopped(h0, s, db, o);
    if s.into.top != Some(db) { TidyItems(ClassOf(h0, sr), s.heap[db], o, s.heap[db].items[o][..n]); }
    BlockChanged(h0, scope, s, ItemPopped(s, db, o), sr, db);
  }

  lemma PtrStoredKeeps(h0: Heap, scope: set<Ref>, s: State, sr: Ref, db: nat, o: int, r: Ref)
    requires Inv(h0, scope, s) && Filling(s, sr, db) && db in s.heap && o in s.heap[db].ptrs
    requires RefOk(Live(s.origin, s.into), r) && (r == Null || r in s.pending)
    requires HasLeaf(h0, sr, PtrLeaf(o))
    ensures Inv(h0, scope, PtrStored(s, db, o, r))
  {
    hide Inv, Accounted, Tidy;
    InvFacts(h0, scope, s);
    if s.into.top != Some(db) { TidyPtr(ClassOf(h0, sr), s.heap[db], o, r); }
    AccountedPtrStored(h0, s, db, o, r);
    BlockChanged(h0, scope, s, PtrStored(s, db, o, r), sr, db);
  }

  lemma ItemStoredKeeps(h0: Heap, scope: set<Ref>, s: State, sr: Ref, db: nat, o: int, i: nat, r: Ref)
    requires Inv(h0, scope, s) && Filling(s, sr, db) && db in s.heap && o in s.heap[db].items
        && i < |s.heap[db].items[o]|
    requires RefOk(Live(s.origin, s.into), r) && (r == Null || r in s.pending)
    requires HasContainer(h0, sr, o)
    ensures Inv(h0, scope, ItemStored(s, db, o, i, r))
  {
    hide Inv, Accounted, Tidy;
    InvFacts(h0, scope, s);
    if s.into.top != Some(db) { TidyItems(ClassOf(h0, sr), s.heap[db], o, s.heap[db].items[o][i := r]); }
    AccountedItemStored(h0, s, db, o, i, r);
    BlockChanged(h0, scope, s, ItemStored(s, db, o, i, r), sr, db);
  }

  lemma ItemAppendedKeeps(h0: Heap, scope: set<Ref>, s: State, sr: Ref, db: nat, o: int, r: Ref)
    requires Inv(h0, scope, s) && Filling(s, sr, db) && db in s.heap && o in s.heap[db].items
    requires RefOk(Live(s.origin, s.into), r) && (r == Null || r in s.pending)
    requires HasContainer(h0, sr, o)
    ensures Inv(h0, scope, ItemAppended(s, db, o, r))
  {
    hide Inv, Accounted, Tidy;
    InvFacts(h0, scope, s);
    if s.into.top != Some(db) { TidyItems(ClassOf(h0, sr), s.heap[db], o, s.heap[db].items[o] + [r]); }
    AccountedItemAppended(h0, s, db, o, r);
    BlockChanged(h0, scope, s, ItemAppended(s, db, o, r), sr, db);
  }

  lemma ResizedKeeps(h0: Heap, scope: set<Ref>, s: State, sr: Ref, db: nat, o: int, n: nat)
    requires Inv(h0, scope, s) && Filling(s, sr, db) && db in s.heap && o in s.heap[db].items
        && s.heap[db].items[o] == []
    requires HasContainer(h0, sr, o)
    ensures Inv(h0, scope, Resized(s, db, o, n))
  {
    hide Inv, Accounted, Tidy;
    InvFacts(h0, scope, s);
    if s.into.top != Some(db) { TidyItems(ClassOf(h0, sr), s.heap[db], o, seq(n, _ => Null)); }
    AccountedResized(h0, s, db, o, n);
    BlockChanged(h0, scope, s, Resized(s, db, o, n), sr, db);
  }

  lemma ValueStoredKeeps(h0: Heap, scope: set<Ref>, s: State, sr: Ref, db: nat, o: int, v: int)
    requires Inv(h0, scope, s) && Filling(s, sr, db) && db in s.heap
    ensures Inv(h0, scope, ValueStored(s, db, o, v))
  {
    hide Inv, Accounted, Tidy;
    InvFacts(h0, scope, s);
    if s.into.top != Some(db) {
      TidySameCells(ClassOf(h0, sr), s.heap[db], s.heap[db].(vals := s.heap[db].vals[o := v]));
    }
    AccountedSameCells(h0, s, ValueStored(s, db, o, v));
    BlockChanged(h0, scope, s, ValueStored(s, db, o, v), sr, db);
  }

  lemma KeysStoredKeeps(h0: Heap, scope: set<Ref>, s: State, sr: Ref, db: nat, o: int, ks: seq<string>)
    requires Inv(h0, scope, s) && Filling(s, sr, db) && db in s.heap
    ensures Inv(h0, scope, KeysStored(s, db, o, ks))
  {
    hide Inv, Accounted, Tidy;
    InvFacts(h0, scope, s);
    if s.into.top != Some(db) {
      TidySameCells(ClassOf(h0, sr), s.heap[db], s.heap[db].(keys := s.heap[db].keys[o := ks]));
    }
    AccountedSameCells(h0, s, KeysStored(s, db, o, ks));
    BlockChanged(h0, scope, s, KeysStored(s, db, o, ks), sr, db);
  }

  // ---------- creating and finishing a clone ----------

  lemma SourceRefersInto(h0: Heap, c: nat)
    requires SourceOk(h0) && c in h0
    ensures RefersInto(h0, h0[c])
  {
    assert SourceBlockOk(h0, h0[c]);
  }

  lemma CloneRefersInto(h0: Heap, scope: set<Ref>, s: State, c: nat)
    requires MemoOk(h0, scope, s) && IntoOk(h0, scope, s)
    requires c in s.heap && CloneBlockOk(Live(s.origin, s.into), s.heap[c])
    ensures RefersInto(s.heap, s.heap[c])
  {
  }

  lemma CellsReferInto(h0: Heap, scope: set<Ref>, s: State, c: nat)
    requires SourceOk(h0) && SourceKept(h0, s) && MemoOk(h0, scope, s) && ClonesOk(h0, s) && c in s.heap
    requires IntoOk(h0, scope, s)
    ensures RefersInto(s.heap, s.heap[c])
  {
    hide SourceOk, MemoOk;
    if c in h0 {
      SourceRefersInto(h0, c);
    } else if c !in s.into.others {
      assert CloneOk(h0, s.origin, s.into, c, s.heap[c]);
      CloneRefersInto(h0, scope, s, c);
    }
  }

  /** No cell of the heap refers to a block that does not exist yet. */
  lemma FreshUnreferenced(h0: Heap, scope: set<Ref>, s: State, b: nat)
    requires SourceOk(h0) && SourceKept(h0, s) && MemoOk(h0, scope, s) && ClonesOk(h0, s) && b !in s.heap
    requires IntoOk(h0, scope, s)
    ensures forall x :: !Holds(s.heap, x, At(b, 0))
  {
    hide SourceOk, SourceKept, MemoOk, ClonesOk, IntoOk;
    forall c | c in s.heap ensures RefersInto(s.heap, s.heap[c]) {
      CellsReferInto(h0, scope, s, c);
    }
  }

  lemma NewBlockHoldsNothing(h: Heap, b: nat, cls: ClassInfo, t: Ref)
    requires b !in h && t != Null
    ensures InDegree(h[b := NewBlock(cls)], t) == InDegree(h, t)
  {
    var blk := NewBlock(cls);
    forall x ensures Holds(h, x, t) <==> Holds(h[b := blk], x, t) {
      if x.block == b {
        assert forall o | o in blk.ptrs :: blk.ptrs[o] == Null;
        assert forall o | o in blk.items :: blk.items[o] == [];
      }
    }
    SameHolders(h, h[b := blk], t);
  }

  lemma AccountedCreated(h0: Heap, s: State, src: Ref, b: nat, cls: ClassInfo)
    requires Accounted(h0, s) && b !in s.heap && b !in h0
    requires forall x :: !Holds(s.heap, x, At(b, 0))
    ensures Accounted(h0, Created(s, src, b, NewBlock(cls)))
  {
    var t := Created(s, src, b, NewBlock(cls));
    assert InDegree(s.heap, At(b, 0)) == 0 by {
      assert Holders(s.heap, At(b, 0)) == {};
    }
    hide InDegree, HeldExist;
    hide NewBlock;
    assert NewBlock(cls).locks == 1 by { NewBlockLocks(cls); }
    HeldExistStored(h0, s, t);
    forall c | c in t.heap && c !in h0
      ensures t.heap[c].locks == InDegree(t.heap, At(c, 0)) + t.pending[At(c, 0)]
    {
      NewBlockHoldsNothing(s.heap, b, cls, At(c, 0));
    }
  }

  lemma NewBlockLocks(cls: ClassInfo)
    ensures NewBlock(cls).locks == 1
  {
  }

  lemma SourceCreated(h0: Heap, s: State, src: Ref, b: nat, blk: Block)
    requires SourceKept(h0, s) && b !in s.heap
    ensures SourceKept(h0, Created(s, src, b, blk))
  {
  }

  lemma MemoCreated(h0: Heap, scope: set<Ref>, s: State, src: Ref, b: nat, blk: Block)
    requires MemoOk(h0, scope, s) && b !in h0 && b !in s.into.others && s.into.top != Some(b)
    requires src in scope && src !in s.memo && IsHeapObject(h0, src) && b !in s.heap
    ensures MemoOk(h0, scope, Created(s, src, b, blk))
  {
  }

  lemma ClonesCreated(h0: Heap, s: State, src: Ref, b: nat)
    requires ClonesOk(h0, s) && IsHeapObject(h0, src) && b !in s.heap && b !in s.origin && s.into.top != Some(b)
    requires BlockOk(h0[src.block])
    ensures ClonesOk(h0, Created(s, src, b, NewBlock(ClassOf(h0, src))))
  {
    var cls := ClassOf(h0, src);
    var t := Created(s, src, b, NewBlock(cls));
    NewBlockPresent(h0[src.block], cls);
    forall c | c in t.heap && c !in h0 && c !in t.into.others ensures CloneOk(h0, t.origin, t.into, c, t.heap[c]) {
      if c != b {
        assert CloneOk(h0, s.origin, s.into, c, s.heap[c]);
      }
    }
  }

  lemma CreatedKeeps(h0: Heap, scope: set<Ref>, s: State, src: Ref, b: nat)
    requires SourceOk(h0) && Inv(h0, scope, s)
    requires src in scope && src !in s.memo && IsHeapObject(h0, src)
    requires b !in s.heap
    ensures Inv(h0, scope, Created(s, src, b, NewBlock(ClassOf(h0, src))))
  {
    var blk := NewBlock(ClassOf(h0, src));
    var t := Created(s, src, b, blk);
    FreshBlock(h0, scope, s, b);
    assert BlockOk(h0[src.block]) by { assert SourceBlockOk(h0, h0[src.block]); }
    hide SourceOk, SourceKept, MemoOk, DoneCloned, ClonesOk, ClonesTidy, Accounted, BlockOk, NewBlock, IntoOk;
    IntoCreated(h0, scope, s, src, b, blk);
    TidyCreated(h0, s, src, b);
    FreshUnreferenced(h0, scope, s, b);
    AccountedCreated(h0, s, src, b, ClassOf(h0, src));
    SourceCreated(h0, s, src, b, blk);
    MemoCreated(h0, scope, s, src, b, blk);
    ClonesCreated(h0, s, src, b);
    DoneCreated(h0, s, src, b, blk);
  }

  lemma FreshBlock(h0: Heap, scope: set<Ref>, s: State, b: nat)
    requires Inv(h0, scope, s) && b !in s.heap
    ensures b !in s.origin && b !in h0 && b !in s.into.others && s.into.top != Some(b)
  {
    hide DoneCloned, ClonesOk, ClonesTidy, Accounted, Covered, RefersInto, ObjectLeaves;
    assert MemoOk(h0, scope, s) && IntoOk(h0, scope, s) && SourceKept(h0, s);
  }

  lemma IntoCreated(h0: Heap, scope: set<Ref>, s: State, src: Ref, b: nat, blk: Block)
    requires IntoOk(h0, scope, s) && b !in s.origin && b !in s.heap
    ensures IntoOk(h0, scope, Created(s, src, b, blk))
  {
    hide IntoOk;
    IntoKept(h0, scope, s, Created(s, src, b, blk));
  }

  lemma TidyCreated(h0: Heap, s: State, src: Ref, b: nat)
    requires ClonesTidy(h0, s) && IsHeapObject(h0, src)
    ensures ClonesTidy(h0, Created(s, src, b, NewBlock(ClassOf(h0, src))))
  {
    hide ObjectLeaves, ClassMap;
  }

  lemma DoneCreated(h0: Heap, s: State, src: Ref, b: nat, blk: Block)
    requires DoneCloned(h0, s) && src !in s.memo && b !in s.heap
    ensures DoneCloned(h0, Created(s, src, b, blk))
  {
    DoneKept(h0, s, Created(s, src, b, blk));
  }

  lemma CreatedFillable(h0: Heap, scope: set<Ref>, s: State, src: Ref, b: nat)
    requires SourceOk(h0) && IsHeapObject(h0, src) && src !in s.done
    ensures Fillable(h0, Created(s, src, b, NewBlock(ClassOf(h0, src))), src, b, ObjectLeaves(ClassOf(h0, src), 0))
  {
    assert SourceBlockOk(h0, h0[src.block]);
    NewBlockPresent(h0[src.block], ClassOf(h0, src));
  }

  /** A filled block completes its clone. */
  lemma FinishedKeeps(h0: Heap, scope: set<Ref>, s: State, src: Ref, b: nat)
    requires Inv(h0, scope, s) && src in s.memo && s.memo[src] == At(b, 0) && b in s.heap
    requires IsHeapObject(h0, src)
    requires LeavesMatch(h0[src.block], s.heap[b], s.memo, ObjectLeaves(ClassOf(h0, src), 0))
    ensures Inv(h0, scope, s.(done := s.done + {src}))
  {
    hide ObjectLeaves, Tidy, Accounted, LeavesMatch, CloneBlockOk;
    var t := s.(done := s.done + {src});
    assert b in s.origin && b !in h0 by { assert MemoOk(h0, scope, s); }
    assert b !in s.into.others by { assert MemoOk(h0, scope, s); }
    assert CloneOk(h0, s.origin, s.into, b, s.heap[b]);
    assert Cloned(h0, t.heap, t.memo, src);
    hide SourceKept, MemoOk, ClonesOk, ClonesTidy, Cloned;
    assert DoneCloned(h0, t);
    SameButDone(h0, scope, s, t);
  }

  lemma SameButDone(h0: Heap, scope: set<Ref>, s: State, t: State)
    requires t == s.(done := t.done) && Inv(h0, scope, s) && DoneCloned(h0, t)
    ensures Inv(h0, scope, t)
  {
    hide InDegree, ObjectLeaves, Tidy, Cloned, CloneOk, DoneCloned, MemoOk, SourceKept, HeldExist, IntoOk;
    IntoKept(h0, scope, s, t);
    assert MemoOk(h0, scope, t) && SourceKept(h0, t) && HeldExist(h0, t) by { SameButDoneFacts(h0, scope, s, t); }
  }

  lemma SameButDoneFacts(h0: Heap, scope: set<Ref>, s: State, t: State)
    requires t == s.(done := t.done) && MemoOk(h0, scope, s) && SourceKept(h0, s) && HeldExist(h0, s)
    ensures MemoOk(h0, scope, t) && SourceKept(h0, t) && HeldExist(h0, t)
  {
  }

  lemma FinishedHanded(s: State, t0: State, t: State, src: Ref, b: nat, blk: Block, image: Block, ls: seq<Leaf>)
    requires src !in s.memo && b !in s.heap && b !in s.origin && src !in s.done
    requires t0 == Created(s, src, b, blk) && Progress(image, t0, t, b, ls, multiset{})
    ensures Handed(s, t.(done := t.done + {src}), src, At(b, 0))
  {
    hide BlockProgress, OthersKept;
    var u := t.(done := t.done + {src});
    assert OthersKept(s, u, None) by { OthersCreated(s, t0, t, src, b, blk); }
    assert t.pending == t0.pending + multiset{};
  }

  lemma OthersCreated(s: State, t0: State, t: State, src: Ref, b: nat, blk: Block)
    requires b !in s.heap && t0 == Created(s, src, b, blk) && OthersKept(t0, t, Some(b))
    ensures OthersKept(s, t.(done := t.done + {src}), None)
  {
    forall c | c in s.heap && c in t.heap ensures SameButLocks(s.heap[c], t.heap[c]) {
      assert SameButLocks(t0.heap[c], t.heap[c]);
    }
  }

  lemma HitHanded(s: State, src: Ref)
    requires src in s.memo && s.memo[src].At? && s.memo[src].block in s.heap
    ensures Handed(s, Locked(s, s.memo[src]), src, s.memo[src])
  {
  }

  // ---------- composing progress ----------

  lemma Advance(h0: Heap, a: State, s: State, t: State, sr: Ref, db: nat, ls: seq<Leaf>, ks: seq<Leaf>, rest: seq<Leaf>)
    requires sr.At? && sr.block in h0
    requires Progress(h0[sr.block], a, s, db, ls, multiset{}) && Fillable(h0, s, sr, db, ks + rest)
    requires Progress(h0[sr.block], s, t, db, ks, multiset{})
    ensures Progress(h0[sr.block], a, t, db, ls + ks, multiset{})
    ensures Fillable(h0, t, sr, db, rest)
    ensures ls + (ks + rest) == (ls + ks) + rest
  {
    FillableKept(h0, s, t, sr, db, ks, rest);
    ProgressTrans(h0[sr.block], a, s, t, db, ls, ks);
  }
}

/**
 What every step of a clone keeps.

 A `State` is the heap together with the copier's map from sources to clones, its inverse from
 clone blocks to sources, the sources whose contents are completely copied, the references held by
 the smart pointers on the call stack, and what is copied into if it existed before the copy.
 */
module CloneInvariant {
  import opened Basics
  import opened ObjectModel
  import opened Layout
  import opened References

  /**
   The destination of a copy that existed before, and the other objects that it, or what it refers to,
   may hold. It has an origin like a clone, but no place in the map.
   */
  datatype Into = Into(top: Option<nat>, others: set<nat>)

  const Nothing := Into(None, {})

  datatype State = State(
    heap: Heap, memo: map<Ref, Ref>, origin: map<nat, Ref>, done: set<Ref>, pending: multiset<Ref>, into: Into)

  /** What a clone or the destination may refer to. */
  function Live(origin: map<nat, Ref>, into: Into): set<nat> {
    (set b | b in origin && into.top != Some(b)) + into.others
  }

  // ---------- correspondence ----------

  ghost predicate Corresponds(memo: map<Ref, Ref>, a: Ref, b: Ref) {
    if a == Null then b == Null else a in memo && b == memo[a]
  }

  ghost predicate AllCorrespond(memo: map<Ref, Ref>, xs: seq<Ref>, ys: seq<Ref>) {
    |xs| == |ys| && forall i | 0 <= i < |xs| :: Corresponds(memo, xs[i], ys[i])
  }

  /** The leaf of the source block has been copied into the destination block. */
  ghost predicate LeafMatches(src: Block, dst: Block, memo: map<Ref, Ref>, l: Leaf) {
    && LeafPresent(src, l) && LeafPresent(dst, l)
    && match l
       case ValueLeaf(o) => dst.vals[o] == src.vals[o]
       case PtrLeaf(o) => Corresponds(memo, src.ptrs[o], dst.ptrs[o])
       case ListLeaf(o) => AllCorrespond(memo, src.items[o], dst.items[o])
       case DictLeaf(o) => AllCorrespond(memo, src.items[o], dst.items[o]) && dst.keys[o] == src.keys[o]
       case ClassLeaf(_, _) => true
  }

  ghost predicate LeavesMatch(src: Block, dst: Block, memo: map<Ref, Ref>, ls: seq<Leaf>) {
    forall l | l in ls :: LeafMatches(src, dst, memo, l)
  }

  /** Block `memo[r].block` is a complete clone of heap object `r`. */
  ghost predicate Cloned(h0: Heap, h: Heap, memo: map<Ref, Ref>, r: Ref) {
    && IsHeapObject(h0, r) && r in memo && IsHeapObject(h, memo[r])
    && LeavesMatch(h0[r.block], h[memo[r].block], memo, ObjectLeaves(ClassOf(h0, r), 0))
  }

  // ---------- invariant ----------

  ghost predicate SourceKept(h0: Heap, s: State) {
    forall b | b in h0 :: b in s.heap && s.heap[b] == h0[b]
  }

  /** `memo` and `origin` are inverse to each other, between objects in scope and new blocks. */
  ghost predicate MemoOk(h0: Heap, scope: set<Ref>, s: State) {
    && (forall r | r in s.memo ::
          && r in scope && IsHeapObject(h0, r)
          && s.memo[r].At? && s.memo[r].off == 0
          && s.memo[r].block in s.origin && s.origin[s.memo[r].block] == r
          && s.into.top != Some(s.memo[r].block))
    && (forall b | b in s.origin ::
          && (s.into.top == Some(b) || (s.origin[b] in s.memo && s.memo[s.origin[b]] == At(b, 0)))
          && b in s.heap && b !in h0 && b !in s.into.others)
  }

  /** The targets of the object are in scope. */
  ghost predicate Covered(h0: Heap, scope: set<Ref>, r: Ref) {
    forall x | Edge(h0, r, x) :: x in scope
  }

  ghost predicate RefersInto(h: Heap, b: Block) {
    && (forall o | o in b.ptrs && b.ptrs[o].At? :: b.ptrs[o].block in h)
    && (forall o, i | o in b.items && 0 <= i < |b.items[o]| && b.items[o][i].At? :: b.items[o][i].block in h)
  }

  ghost predicate IntoOk(h0: Heap, scope: set<Ref>, s: State) {
    && (s.into.top.Some? ==> s.into.top.value in s.origin && Covered(h0, scope, s.origin[s.into.top.value]))
    && (forall b | b in s.into.others :: b in s.heap && b !in h0 && RefersInto(s.heap, s.heap[b]))
  }

  ghost predicate DoneCloned(h0: Heap, s: State) {
    forall r | r in s.done :: Cloned(h0, s.heap, s.memo, r)
  }

  ghost predicate RefOk(live: set<nat>, r: Ref) {
    r == Null || (r.off == 0 && r.block in live)
  }

  ghost predicate CloneBlockOk(live: set<nat>, b: Block) {
    && (forall o | o in b.ptrs :: RefOk(live, b.ptrs[o]))
    && (forall o, i | o in b.items && 0 <= i < |b.items[o]| :: RefOk(live, b.items[o][i]))
  }

  ghost predicate CloneOk(h0: Heap, origin: map<nat, Ref>, into: Into, b: nat, blk: Block) {
    && b in origin && CloneBlockOk(Live(origin, into), blk)
    && IsHeapObject(h0, origin[b])
    && 0 in blk.classes && blk.classes[0] == ClassOf(h0, origin[b])
  }

  ghost predicate ClonesOk(h0: Heap, s: State) {
    forall b | b in s.heap && b !in h0 && b !in s.into.others :: CloneOk(h0, s.origin, s.into, b, s.heap[b])
  }

  /** A clone refers to nothing but what its class tells the copier to copy. */
  ghost predicate Tidy(cls: ClassInfo, b: Block) {
    && (forall o | o in b.ptrs && PtrLeaf(o) !in ObjectLeaves(cls, 0) :: b.ptrs[o] == Null)
    && (forall o | o in b.items && !Touches(ObjectLeaves(cls, 0), o) :: b.items[o] == [])
  }

  ghost predicate ClonesTidy(h0: Heap, s: State) {
    forall b | b in s.origin && b in s.heap && IsHeapObject(h0, s.origin[b]) && s.into.top != Some(b) ::
      Tidy(ClassOf(h0, s.origin[b]), s.heap[b])
  }

  /** Every lock on a clone is owed to a cell of the heap or to a smart pointer on the call stack. */
  ghost predicate LocksOwed(h0: Heap, s: State) {
    forall b | b in s.heap && b !in h0 :: s.heap[b].locks == InDegree(s.heap, At(b, 0)) + s.pending[At(b, 0)]
  }

  ghost predicate HeldExist(h0: Heap, s: State) {
    forall b | b !in s.heap && b !in h0 :: s.pending[At(b, 0)] == 0
  }

  ghost predicate Accounted(h0: Heap, s: State) {
    LocksOwed(h0, s) && HeldExist(h0, s)
  }

  ghost predicate Inv(h0: Heap, scope: set<Ref>, s: State) {
    && SourceKept(h0, s)
    && MemoOk(h0, scope, s)
    && DoneCloned(h0, s)
    && ClonesOk(h0, s)
    && ClonesTidy(h0, s)
    && Accounted(h0, s)
    && IntoOk(h0, scope, s)
  }

  /** `db` is the block of a clone that is still being filled, or the destination. */
  ghost predicate Filling(s: State, sr: Ref, db: nat) {
    db in s.origin && s.origin[db] == sr && (s.into.top == Some(db) || (sr in s.memo && sr !in s.done))
  }

  // ---------- elementary steps ----------

  function Locked(s: State, r: Ref): State
    requires r.At? && r.block in s.heap
  {
    s.(heap := WithLocks(s.heap, r.block, s.heap[r.block].locks + 1), pending := s.pending + multiset{r})
  }

  function Unlocked(s: State, r: Ref): State
    requires r.At? && r.block in s.heap
  {
    s.(heap := WithLocks(s.heap, r.block, s.heap[r.block].locks - 1), pending := s.pending - multiset{r})
  }

  function Held(r: Ref): multiset<Ref> { if r == Null then multiset{} else multiset{r} }

  /** Store a reference held by a local variable; the variable takes over what the cell held. */
  function PtrStored(s: State, db: nat, o: int, r: Ref): State
    requires db in s.heap && o in s.heap[db].ptrs
  {
    s.(heap := WithPtr(s.heap, db, o, r), pending := s.pending + Held(s.heap[db].ptrs[o]) - Held(r))
  }

  function ItemStored(s: State, db: nat, o: int, i: nat, r: Ref): State
    requires db in s.heap && o in s.heap[db].items && i < |s.heap[db].items[o]|
  {
    s.(heap := WithItems(s.heap, db, o, s.heap[db].items[o][i := r]),
        pending := s.pending + Held(s.heap[db].items[o][i]) - Held(r))
  }

  /** The last item of a container is taken off by a local variable. */
  function ItemPopped(s: State, db: nat, o: int): State
    requires db in s.heap && o in s.heap[db].items && s.heap[db].items[o] != []
  {
    var n := |s.heap[db].items[o]| - 1;
    s.(heap := WithItems(s.heap, db, o, s.heap[db].items[o][..n]),
        pending := s.pending + Held(s.heap[db].items[o][n]))
  }

  function ItemAppended(s: State, db: nat, o: int, r: Ref): State
    requires db in s.heap && o in s.heap[db].items
  {
    s.(heap := WithItems(s.heap, db, o, s.heap[db].items[o] + [r]), pending := s.pending - Held(r))
  }

  function Resized(s: State, db: nat, o: int, n: nat): State
    requires db in s.heap
  {
    s.(heap := WithItems(s.heap, db, o, seq(n, _ => Null)))
  }

  function ValueStored(s: State, db: nat, o: int, v: int): State
    requires db in s.heap
  {
    s.(heap := s.heap[db := s.heap[db].(vals := s.heap[db].vals[o := v])])
  }

  function KeysStored(s: State, db: nat, o: int, ks: seq<string>): State
    requires db in s.heap
  {
    s.(heap := WithKeys(s.heap, db, o, ks))
  }

  function Created(s: State, src: Ref, b: nat, blk: Block): State {
    var r := At(b, 0);
    s.(heap := s.heap[b := blk], memo := s.memo[src := r], origin := s.origin[b := src],
        pending := s.pending + multiset{r})
  }

  // ---------- each step keeps the invariant ----------

  ghost predicate SameButLocks(d: Block, e: Block) {
    e == d.(locks := e.locks)
  }

  ghost predicate MemoGrows(m: map<Ref, Ref>, n: map<Ref, Ref>) {
    forall r | r in m :: r in n && n[r] == m[r]
  }

  lemma LeafKept(src: Block, d: Block, e: Block, m: map<Ref, Ref>, n: map<Ref, Ref>, l: Leaf)
    requires LeafMatches(src, d, m, l) && SameButLocks(d, e) && MemoGrows(m, n)
    ensures LeafMatches(src, e, n, l)
  {
  }

  /** A complete clone stays one while its block changes only in its lock count. */
  lemma ClonedKept(h0: Heap, h: Heap, k: Heap, m: map<Ref, Ref>, n: map<Ref, Ref>, r: Ref)
    requires Cloned(h0, h, m, r) && MemoGrows(m, n) && m[r].block in k
    requires SameButLocks(h[m[r].block], k[m[r].block])
    ensures Cloned(h0, k, n, r)
  {
    forall l | l in ObjectLeaves(ClassOf(h0, r), 0) ensures LeafMatches(h0[r.block], k[n[r].block], n, l) {
      LeafKept(h0[r.block], h[m[r].block], k[m[r].block], m, n, l);
    }
  }

  lemma DoneKept(h0: Heap, s: State, t: State)
    requires DoneCloned(h0, s) && MemoGrows(s.memo, t.memo) && t.done == s.done
    requires forall r | r in s.done && r in s.memo && s.memo[r].At? && s.memo[r].block in s.heap ::
               s.memo[r].block in t.heap && SameButLocks(s.heap[s.memo[r].block], t.heap[s.memo[r].block])
    ensures DoneCloned(h0, t)
  {
    forall r | r in t.done ensures Cloned(h0, t.heap, t.memo, r) {
      ClonedKept(h0, s.heap, t.heap, s.memo, t.memo, r);
    }
  }

  lemma ClonesKept(h0: Heap, s: State, t: State, db: nat)
    requires ClonesOk(h0, s) && db in t.heap && db in s.heap && db !in h0
    requires t == s.(heap := s.heap[db := t.heap[db]], pending := t.pending)
    requires t.heap[db].classes == s.heap[db].classes
    requires db !in s.into.others ==> CloneBlockOk(Live(s.origin, s.into), t.heap[db])
    ensures ClonesOk(h0, t)
  {
    hide Live;
    if db !in s.into.others { assert CloneOk(h0, s.origin, s.into, db, s.heap[db]); }
  }

  /** The destination's surroundings change in their lock counts only. */
  lemma IntoKept(h0: Heap, scope: set<Ref>, s: State, t: State)
    requires IntoOk(h0, scope, s) && t.into == s.into
    requires forall b | b in s.origin :: b in t.origin && t.origin[b] == s.origin[b]
    requires forall b | b in s.heap :: b in t.heap
    requires forall b | b in s.into.others && b in s.heap :: SameButLocks(s.heap[b], t.heap[b])
    ensures IntoOk(h0, scope, t)
  {
    hide Covered;
  }

  lemma MemoKept(h0: Heap, scope: set<Ref>, s: State, t: State, db: nat)
    requires SourceKept(h0, s) && MemoOk(h0, scope, s) && db in t.heap && db in s.heap && db !in h0
    requires t == s.(heap := s.heap[db := t.heap[db]], pending := t.pending)
    ensures SourceKept(h0, t) && MemoOk(h0, scope, t)
  {
  }

  lemma TidyKept(h0: Heap, s: State, t: State, db: nat)
    requires ClonesTidy(h0, s) && db in t.heap
    requires t == s.(heap := s.heap[db := t.heap[db]], pending := t.pending)
    requires db in s.origin && IsHeapObject(h0, s.origin[db]) && s.into.top != Some(db) ==>
               Tidy(ClassOf(h0, s.origin[db]), t.heap[db])
    ensures ClonesTidy(h0, t)
  {
    hide Tidy;
  }

  /** A clone that is still being filled may change freely. */
  lemma DoneUntouched(h0: Heap, scope: set<Ref>, s: State, t: State, sr: Ref, db: nat)
    requires DoneCloned(h0, s) && MemoOk(h0, scope, s) && Filling(s, sr, db) && db in t.heap
    requires t == s.(heap := s.heap[db := t.heap[db]], pending := t.pending)
    ensures DoneCloned(h0, t)
  {
    DoneKept(h0, s, t);
  }

  lemma BlockChanged(h0: Heap, scope: set<Ref>, s: State, t: State, sr: Ref, db: nat)
    requires Inv(h0, scope, s) && Filling(s, sr, db) && db in s.heap && db !in h0
    requires db in t.heap && t == s.(heap := s.heap[db := t.heap[db]], pending := t.pending)
    requires t.heap[db].classes == s.heap[db].classes
    requires CloneBlockOk(Live(s.origin, s.into), t.heap[db])
    requires IsHeapObject(h0, sr) && s.into.top != Some(db) ==> Tidy(ClassOf(h0, sr), t.heap[db])
    requires Accounted(h0, t)
    ensures Inv(h0, scope, t)
  {
    assert db !in s.into.others by { assert MemoOk(h0, scope, s); }
    hide SourceKept, MemoOk, DoneCloned, ClonesOk, ClonesTidy, Tidy, Accounted, CloneBlockOk, IntoOk;
    IntoKept(h0, scope, s, t);
    TidyKept(h0, s, t, db);
    MemoKept(h0, scope, s, t, db);
    ClonesKept(h0, s, t, db);
    DoneUntouched(h0, scope, s, t, sr, db);
  }

  lemma HeldExistStored(h0: Heap, s: State, t: State)
    requires HeldExist(h0, s) && (forall b | b in s.heap :: b in t.heap)
    requires forall r | r in t.pending && r !in s.pending && r.At? :: r.block in t.heap
    ensures HeldExist(h0, t)
  {
  }

  lemma AccountedLocked(h0: Heap, s: State, r: Ref)
    requires Accounted(h0, s) && r.At? && r.off == 0 && r.block in s.heap
    ensures Accounted(h0, Locked(s, r))
  {
    hide InDegree, HeldExist;
    var t := Locked(s, r);
    HeldExistStored(h0, s, t);
    forall b | b in t.heap && b !in h0
      ensures t.heap[b].locks == InDegree(t.heap, At(b, 0)) + t.pending[At(b, 0)]
    {
      InDegreeDependsOnCells(s.heap, t.heap, At(b, 0));
    }
  }

  lemma AccountedUnlocked(h0: Heap, s: State, r: Ref)
    requires Accounted(h0, s) && r.At? && r.off == 0 && r.block in s.heap && r in s.pending
    ensures Accounted(h0, Unlocked(s, r))
  {
    hide InDegree, HeldExist;
    var t := Unlocked(s, r);
    HeldExistStored(h0, s, t);
    forall b | b in t.heap && b !in h0
      ensures t.heap[b].locks == InDegree(t.heap, At(b, 0)) + t.pending[At(b, 0)]
    {
      InDegreeDependsOnCells(s.heap, t.heap, At(b, 0));
    }
  }

  lemma SameCellsCloneOk(h0: Heap, s: State, b: nat, n: int)
    requires ClonesOk(h0, s) && ClonesTidy(h0, s) && b in s.heap && b !in h0
    ensures b !in s.into.others ==> CloneBlockOk(Live(s.origin, s.into), s.heap[b].(locks := n))
    ensures b in s.origin && IsHeapObject(h0, s.origin[b]) && s.into.top != Some(b) ==>
              Tidy(ClassOf(h0, s.origin[b]), s.heap[b].(locks := n))
  {
    hide Live;
    if b !in s.into.others { assert CloneOk(h0, s.origin, s.into, b, s.heap[b]); }
  }

  /** A changed lock count, whoever holds the reference. */
  lemma LocksChanged(h0: Heap, scope: set<Ref>, s: State, b: nat, n: int, p: multiset<Ref>)
    requires Inv(h0, scope, s) && b in s.heap && b !in h0
    requires Accounted(h0, s.(heap := WithLocks(s.heap, b, n), pending := p))
    ensures Inv(h0, scope, s.(heap := WithLocks(s.heap, b, n), pending := p))
  {
    hide SourceKept, MemoOk, DoneCloned, ClonesOk, ClonesTidy, Tidy, Accounted, CloneBlockOk, IntoOk;
    var t := s.(heap := WithLocks(s.heap, b, n), pending := p);
    IntoKept(h0, scope, s, t);
    SameCellsCloneOk(h0, s, b, n);
    MemoKept(h0, scope, s, t, b);
    ClonesKept(h0, s, t, b);
    TidyKept(h0, s, t, b);
    DoneKept(h0, s, t);
  }
}

/** Copying one pointer cell, one list or one dict: the steps put together. */
module CloneContents {
  import opened Basics
  import opened ObjectModel
  import opened Layout
  import opened References
  import opened CloneInvariant
  import opened CloneProgress
  import opened CloneSteps

  ghost predicate Closed(h0: Heap, scope: set<Ref>) {
    forall a, b | a in scope && Edge(h0, a, b) :: b in scope
  }

  ghost predicate PtrReady(h0: Heap, s: State, r: Ref, was: Ref) {
    && (was == Null
        || (r in s.memo && was == s.memo[r] && IsClone(s, was) && was.block in s.heap)
        || (was.off == 0 && was.block in s.into.others && was.block in s.heap))
    && (r == Null && was != Null ==> was.block in s.into.others)
    && (r == was ==> r == Null)
  }

  /** What the cell of a pointer member may hold before it is copied. */
  lemma PointerFacts(h0: Heap, scope: set<Ref>, s: State, sr: Ref, db: nat, o: int)
    requires SourceOk(h0) && Inv(h0, scope, s) && Fillable(h0, s, sr, db, [PtrLeaf(o)])
    ensures sr.At? && sr.block in s.heap && sr.block in h0 && s.heap[sr.block] == h0[sr.block] && db in s.heap
        && sr.block != db
    ensures Filling(s, sr, db)
    ensures o in h0[sr.block].ptrs && o in s.heap[db].ptrs
    ensures PtrReady(h0, s, h0[sr.block].ptrs[o], s.heap[db].ptrs[o])
  {
    hide ObjectLeaves, SourceOk, Inv, PtrsUnset;
    assert PtrLeaf(o) in [PtrLeaf(o)];
    FilledFrom(h0, scope, s, sr, db);
    LeafInSource(h0, sr, PtrLeaf(o));
    assert LeafPresent(s.heap[db], PtrLeaf(o));
    WasClone(h0, scope, s, sr, db, o);
  }

  lemma LeafInSource(h0: Heap, sr: Ref, l: Leaf)
    requires SourceOk(h0) && IsHeapObject(h0, sr) && l in ObjectLeaves(ClassOf(h0, sr), 0)
    ensures LeafPresent(h0[sr.block], l)
  {
    hide ObjectLeaves;
    assert SourceBlockOk(h0, h0[sr.block]);
  }

  /** A source and its clone are different blocks, and the source is as it was. */
  lemma FilledFrom(h0: Heap, scope: set<Ref>, s: State, sr: Ref, db: nat)
    requires Inv(h0, scope, s) && Filling(s, sr, db) && IsHeapObject(h0, sr)
    ensures sr.block in s.heap && s.heap[sr.block] == h0[sr.block] && sr.block != db
    ensures forall b | b in s.into.others :: b in s.heap && b !in h0
    ensures forall r | r in s.memo :: IsClone(s, s.memo[r]) && s.memo[r].block in s.heap && s.memo[r].block !in h0
  {
    hide ObjectLeaves, Accounted, ClonesTidy, DoneCloned, ClonesOk, Covered, RefersInto;
    assert MemoOk(h0, scope, s) && SourceKept(h0, s) && IntoOk(h0, scope, s);
  }

  /** A pointer cell of a clone holds nothing, or the clone it is to hold; the destination's may hold others. */
  lemma WasClone(h0: Heap, scope: set<Ref>, s: State, sr: Ref, db: nat, o: int)
    requires SourceOk(h0) && Inv(h0, scope, s) && sr.At? && sr.block in h0 && db in s.heap
    requires Filling(s, sr, db) && IsHeapObject(h0, sr)
    requires o in h0[sr.block].ptrs && o in s.heap[db].ptrs
    requires PtrsUnset(s.into, db, h0[sr.block], s.heap[db], s.memo, [PtrLeaf(o)])
    ensures PtrReady(h0, s, h0[sr.block].ptrs[o], s.heap[db].ptrs[o])
  {
    hide ObjectLeaves, Inv, SourceOk;
    FilledFrom(h0, scope, s, sr, db);
    SourceReferences(h0, sr.block, o);
    assert PtrLeaf(o) in [PtrLeaf(o)];
  }

  lemma SourceReferences(h0: Heap, b: nat, o: int)
    requires SourceOk(h0) && b in h0 && o in h0[b].ptrs
    ensures h0[b].ptrs[o].At? ==> h0[b].ptrs[o].block in h0
  {
    hide ObjectLeaves;
    assert SourceBlockOk(h0, h0[b]);
  }

  /** The target of a leaf in scope is in scope. */
  lemma TargetFacts(h0: Heap, scope: set<Ref>, sr: Ref, l: Leaf, r: Ref)
    requires SourceOk(h0) && Covered(h0, scope, sr) && IsHeapObject(h0, sr)
    requires l in ObjectLeaves(ClassOf(h0, sr), 0) && LeafTarget(h0[sr.block], l, r)
    ensures IsHeapObject(h0, r) && r in scope
  {
    assert SourceBlockOk(h0, h0[sr.block]);
    assert Edge(h0, sr, r);
  }

  lemma FillingKept(s: State, t: State, src: Ref, r: Ref, sr: Ref, db: nat)
    requires Handed(s, t, src, r) && Filling(s, sr, db) && db in s.heap
    ensures Filling(t, sr, db) && db in t.heap && SameButLocks(s.heap[db], t.heap[db])
    ensures r in t.pending && src in t.memo && t.memo[src] == r
  {
  }

  /** A step that writes to block `db` and to lock counts only. */
  ghost predicate Local(s: State, t: State, db: nat) {
    && t == s.(heap := t.heap, pending := t.pending)
    && (forall b :: b in s.heap <==> b in t.heap)
    && OthersKept(s, t, Some(db))
  }

  /** A copy into another object between two local steps. */
  lemma AroundCopy(s0: State, s1: State, s2: State, s3: State, db: nat, r: Ref, tmp: Ref)
    requires Local(s0, s1, db) && Handed(s1, s2, r, tmp) && Local(s2, s3, db)
    ensures Grown(s0, s3) && OthersKept(s0, s3, Some(db))
    ensures db in s0.heap && db in s3.heap ==> db in s1.heap && db in s2.heap && SameButLocks(s1.heap[db], s2.heap[db])
    ensures r in s3.memo && s3.memo[r] == tmp
  {
    forall b | b in s0.heap && b in s3.heap && b != db ensures SameButLocks(s0.heap[b], s3.heap[b]) {
      assert SameButLocks(s0.heap[b], s1.heap[b]) && SameButLocks(s1.heap[b], s2.heap[b])
          && SameButLocks(s2.heap[b], s3.heap[b]);
    }
  }

  /** Clear the cell, copy the target, store its clone, drop what the cell held before. */
  lemma PointerCopied(src: Block, s0: State, s1: State, s2: State, s3: State, db: nat, o: int, r: Ref, tmp: Ref)
    requires db in s0.heap && db in s1.heap && db in s2.heap && db in s3.heap
    requires o in s0.heap[db].ptrs && o in src.ptrs && src.ptrs[o] == r && r != Null
    requires Local(s0, s1, db) && Handed(s1, s2, r, tmp) && Local(s2, s3, db)
    requires s1.heap[db] == s0.heap[db].(ptrs := s0.heap[db].ptrs[o := Null])
    requires s3.heap[db] == s2.heap[db].(ptrs := s2.heap[db].ptrs[o := tmp], locks := s3.heap[db].locks)
    requires s3.pending == s0.pending
    ensures Progress(src, s0, s3, db, [PtrLeaf(o)], multiset{})
  {
    AroundCopy(s0, s1, s2, s3, db, r, tmp);
    hide Handed, Local, Grown, OthersKept, BlockProgress;
    assert MemoGrows(s0.memo, s3.memo) by { GrownMemo(s0, s3); }
    PtrDone(src, s0.heap[db], s3.heap[db], s0.memo, s3.memo, o);
  }

  lemma GrownMemo(s: State, t: State)
    requires Grown(s, t)
    ensures MemoGrows(s.memo, t.memo)
  {
  }

  lemma LocalPtr(s: State, db: nat, o: int, r: Ref)
    requires db in s.heap && o in s.heap[db].ptrs
    ensures var t := PtrStored(s, db, o, r);
            Local(s, t, db) && db in t.heap && t.heap[db] == s.heap[db].(ptrs := s.heap[db].ptrs[o := r])
  {
  }

  lemma LocalPtrUnlocked(s: State, db: nat, o: int, r: Ref, was: Ref)
    requires db in s.heap && o in s.heap[db].ptrs && was.At? && was.block in s.heap
    ensures was.block in PtrStored(s, db, o, r).heap
    ensures var t := Unlocked(PtrStored(s, db, o, r), was);
            Local(s, t, db) && db in t.heap
            && t.heap[db] == s.heap[db].(ptrs := s.heap[db].ptrs[o := r], locks := t.heap[db].locks)
  {
  }

  /** The steps of CopyPointer, with the release of what the cell held before. */
  lemma PointerFinished(src: Block, s0: State, s1: State, s2: State, t: State, db: nat, o: int, r: Ref, tmp: Ref,
          was: Ref)
    requires db in s0.heap && o in s0.heap[db].ptrs && o in src.ptrs && src.ptrs[o] == r && r != Null && tmp.At?
    requires was == s0.heap[db].ptrs[o] && (was == Null || (was.At? && was.block in s0.heap))
    requires s1 == PtrStored(s0, db, o, Null) && Handed(s1, s2, r, tmp)
    requires db in s2.heap && SameButLocks(s1.heap[db], s2.heap[db])
    requires was.At? ==> was.block in s2.heap
    requires t == (if was == Null then PtrStored(s2, db, o, tmp) else Unlocked(PtrStored(s2, db, o, tmp), was))
    ensures Progress(src, s0, t, db, [PtrLeaf(o)], multiset{})
  {
    hide Handed, Local, Progress, PtrStored, Unlocked, Held;
    LocalPtr(s0, db, o, Null);
    if was == Null { LocalPtr(s2, db, o, tmp); } else { LocalPtrUnlocked(s2, db, o, tmp, was); }
    assert s2.pending == s1.pending + multiset{tmp} by { HandedPending(s1, s2, r, tmp); }
    assert t.pending == s0.pending by { PendingBack(s0, s1, s2, t, db, o, tmp, was); }
    PointerCopied(src, s0, s1, s2, t, db, o, r, tmp);
  }

  lemma PendingBack(s0: State, s1: State, s2: State, t: State, db: nat, o: int, tmp: Ref, was: Ref)
    requires db in s0.heap && o in s0.heap[db].ptrs && was == s0.heap[db].ptrs[o] && tmp.At?
    requires s1 == PtrStored(s0, db, o, Null) && s2.pending == s1.pending + multiset{tmp}
    requires db in s2.heap && o in s2.heap[db].ptrs && s2.heap[db].ptrs[o] == Null
    requires was.At? ==> was.block in s2.heap
    requires t == (if was == Null then PtrStored(s2, db, o, tmp) else Unlocked(PtrStored(s2, db, o, tmp), was))
    ensures t.pending == s0.pending
  {
    hide WithPtr, WithLocks;
    GivenBack(s0.pending, Held(was), Held(tmp), Held(Null));
  }

  lemma GivenBack(p: multiset<Ref>, a: multiset<Ref>, b: multiset<Ref>, none: multiset<Ref>)
    requires none == multiset{}
    ensures p + a - none + b + none - b - a == p
    ensures a == none ==> p + a - none + b + none - b == p
  {
  }

  lemma HandedPending(s: State, t: State, r: Ref, tmp: Ref)
    requires Handed(s, t, r, tmp)
    ensures t.pending == s.pending + multiset{tmp}
    ensures r in s.memo ==> s.memo[r] == tmp
  {
  }

  // ---------- emptying a container ----------

  /** Only the container at `o` of block `db` changed, which is empty now, and lock counts. */
  ghost predicate Emptied(s: State, t: State, db: nat, o: int) {
    && Local(s, t, db) && t.pending == s.pending
    && db in s.heap && db in t.heap && o in s.heap[db].items
    && t.heap[db] == s.heap[db].(items := s.heap[db].items[o := []], locks := t.heap[db].locks)
  }

  function Times(rs: seq<Ref>, b: nat): nat { multiset(rs)[At(b, 0)] }

  /** Some clone in the container has all its locks from there: emptying the container destroys it. */
  ghost predicate Loses(s: State, db: nat, o: int) {
    && db in s.heap && o in s.heap[db].items
    && exists b :: LosesBlock(s, db, o, b)
  }

  ghost predicate LosesBlock(s: State, db: nat, o: int, b: nat)
    requires db in s.heap && o in s.heap[db].items
  {
    var n := Times(s.heap[db].items[o], b);
    b in s.heap && b !in s.into.others && n > 0 && s.heap[b].locks <= n
  }

  /** Emptying under way: `n` items are left, the others are released and their objects alive. */
  ghost predicate Emptying(s: State, t: State, db: nat, o: int, n: nat) {
    && Local(s, t, db) && t.pending == s.pending
    && db in s.heap && db in t.heap && o in s.heap[db].items && n <= |s.heap[db].items[o]|
    && t.heap[db] == s.heap[db].(items := s.heap[db].items[o := s.heap[db].items[o][..n]], locks := t.heap[db].locks)
    && Drained(s.heap, t.heap, s.heap[db].items[o], n)
    && Spared(s.into.others, t.heap, s.heap[db].items[o], n)
  }

  /** As many locks are gone as items were taken off. */
  ghost predicate Drained(h: Heap, k: Heap, rs: seq<Ref>, n: nat)
    requires n <= |rs|
  {
    forall b | b in h && b in k :: k[b].locks == h[b].locks - Times(rs, b) + Times(rs[..n], b)
  }

  ghost predicate Spared(others: set<nat>, k: Heap, rs: seq<Ref>, n: nat)
    requires n <= |rs|
  {
    forall b | b in k && b !in others && Times(rs[..n], b) < Times(rs, b) :: k[b].locks > 0
  }

  lemma EmptyingStarts(s: State, db: nat, o: int)
    requires db in s.heap && o in s.heap[db].items
    ensures Emptying(s, s, db, o, |s.heap[db].items[o]|)
  {
    var rs := s.heap[db].items[o];
    assert rs[..|rs|] == rs;
    assert s.heap[db].items[o := rs] == s.heap[db].items;
  }

  lemma TimesPrefix(rs: seq<Ref>, n: nat, b: nat)
    requires n < |rs|
    ensures Times(rs[..n + 1], b) == Times(rs[..n], b) + if rs[n] == At(b, 0) then 1 else 0
  {
    assert rs[..n + 1] == rs[..n] + [rs[n]];
  }

  /** The state after the last item was taken off and its object released. */
  function Released(s: State, db: nat, o: int): State
    requires db in s.heap && o in s.heap[db].items && s.heap[db].items[o] != []
    requires var r := s.heap[db].items[o][|s.heap[db].items[o]| - 1]; r.At? ==> r.block in s.heap
  {
    var t := ItemPopped(s, db, o);
    var r := s.heap[db].items[o][|s.heap[db].items[o]| - 1];
    if r == Null then t else Unlocked(t, r)
  }

  lemma ReleasedLocks(s: State, db: nat, o: int, b: nat)
    requires db in s.heap && o in s.heap[db].items && s.heap[db].items[o] != [] && b in s.heap
    requires var r := s.heap[db].items[o][|s.heap[db].items[o]| - 1]; r.At? ==> r.block in s.heap && r.off == 0
    ensures b in Released(s, db, o).heap
    ensures Released(s, db, o).heap[b].locks
         == s.heap[b].locks - if s.heap[db].items[o][|s.heap[db].items[o]| - 1] == At(b, 0) then 1 else 0
  {
  }

  lemma ReleasedBlock(s: State, db: nat, o: int)
    requires db in s.heap && o in s.heap[db].items && s.heap[db].items[o] != []
    requires var r := s.heap[db].items[o][|s.heap[db].items[o]| - 1]; r.At? ==> r.block in s.heap
    ensures var t := Released(s, db, o); t == s.(heap := t.heap, pending := t.pending)
    ensures var t := Released(s, db, o); t.pending == s.pending && forall b :: b in s.heap <==> b in t.heap
    ensures db in Released(s, db, o).heap
    ensures Released(s, db, o).heap[db] == s.heap[db].(
              items := s.heap[db].items[o := s.heap[db].items[o][..|s.heap[db].items[o]| - 1]],
              locks := Released(s, db, o).heap[db].locks)
  {
    var r := s.heap[db].items[o][|s.heap[db].items[o]| - 1];
    if r != Null { assert s.pending + multiset{r} - multiset{r} == s.pending; }
  }

  lemma ReleasedOther(s: State, db: nat, o: int, b: nat)
    requires db in s.heap && o in s.heap[db].items && s.heap[db].items[o] != []
    requires var r := s.heap[db].items[o][|s.heap[db].items[o]| - 1]; r.At? ==> r.block in s.heap
    requires b in s.heap && b in Released(s, db, o).heap && b != db
    ensures SameButLocks(s.heap[b], Released(s, db, o).heap[b])
  {
  }

  lemma LocalReleased(s: State, db: nat, o: int)
    requires db in s.heap && o in s.heap[db].items && s.heap[db].items[o] != []
    requires var r := s.heap[db].items[o][|s.heap[db].items[o]| - 1]; r.At? ==> r.block in s.heap
    ensures Local(s, Released(s, db, o), db) && Released(s, db, o).pending == s.pending
    ensures db in Released(s, db, o).heap
    ensures Released(s, db, o).heap[db] == s.heap[db].(
              items := s.heap[db].items[o := s.heap[db].items[o][..|s.heap[db].items[o]| - 1]],
              locks := Released(s, db, o).heap[db].locks)
  {
    hide Released, SameButLocks;
    ReleasedBlock(s, db, o);
    forall b | b in s.heap && b in Released(s, db, o).heap && b != db
      ensures SameButLocks(s.heap[b], Released(s, db, o).heap[b])
    {
      ReleasedOther(s, db, o, b);
    }
  }

  lemma LocalTrans(s: State, t: State, u: State, db: nat)
    requires Local(s, t, db) && Local(t, u, db)
    ensures Local(s, u, db)
  {
    OthersTrans(s, t, u, Some(db));
  }

  /** The last item that is left is the last but `n - 1` of the container. */
  lemma EmptyingLast(s: State, t: State, db: nat, o: int, n: nat)
    requires Emptying(s, t, db, o, n) && n > 0
    ensures db in s.heap && o in s.heap[db].items && n <= |s.heap[db].items[o]|
    ensures db in t.heap && o in t.heap[db].items && t.heap[db].items[o] == s.heap[db].items[o][..n]
    ensures t.heap[db].items[o][|t.heap[db].items[o]| - 1] == s.heap[db].items[o][n - 1]
    ensures t.heap[db].items[o][..|t.heap[db].items[o]| - 1] == s.heap[db].items[o][..n - 1]
  {
    hide Local, Drained, Spared;
  }

  lemma DrainedStep(h: Heap, t: State, u: State, db: nat, o: int, rs: seq<Ref>, n: nat)
    requires 0 < n <= |rs| && Drained(h, t.heap, rs, n) && db in t.heap && o in t.heap[db].items
    requires t.heap[db].items[o] == rs[..n]
    requires rs[n - 1].At? ==> rs[n - 1].off == 0 && rs[n - 1].block in t.heap
    requires u == Released(t, db, o) && forall b :: b in u.heap <==> b in t.heap
    ensures Drained(h, u.heap, rs, n - 1)
  {
    hide Times, Released;
    forall b | b in h && b in u.heap
      ensures u.heap[b].locks == h[b].locks - Times(rs, b) + Times(rs[..n - 1], b)
    {
      TimesPrefix(rs, n - 1, b);
      ReleasedLocks(t, db, o, b);
    }
  }

  /** The object of the item that is taken off next has no other lock than from the container. */
  lemma LastLock(s: State, t: State, db: nat, o: int, n: nat)
    requires Emptying(s, t, db, o, n) && n > 0
    requires s.heap[db].items[o][n - 1].At? && s.heap[db].items[o][n - 1].block in t.heap
    requires s.heap[db].items[o][n - 1].off == 0 && t.heap[s.heap[db].items[o][n - 1].block].locks <= 1
    requires s.heap[db].items[o][n - 1].block !in s.into.others
    ensures LosesBlock(s, db, o, s.heap[db].items[o][n - 1].block)
  {
    hide Local, Spared, Times;
    var rs := s.heap[db].items[o];
    var b := rs[n - 1].block;
    assert b in s.heap by { LocalBlocks(s, t, db); }
    assert rs[n - 1] == At(b, 0);
    TimesPrefix(rs, n - 1, b);
    TimesAll(rs, n, b);
  }

  lemma LocalBlocks(s: State, t: State, db: nat)
    requires Local(s, t, db)
    ensures forall b :: b in s.heap <==> b in t.heap
  {
  }

  lemma TimesAll(rs: seq<Ref>, n: nat, b: nat)
    requires n <= |rs|
    ensures Times(rs[..n], b) <= Times(rs, b)
  {
    assert rs == rs[..n] + rs[n..];
  }

  /** One item less, unless the release of its object destroys it. */
  lemma EmptyingStep(s: State, t: State, db: nat, o: int, n: nat)
    requires Emptying(s, t, db, o, n) && n > 0
    requires var r := s.heap[db].items[o][n - 1]; r.At? ==> r.block in t.heap && r.off == 0
    ensures t.heap[db].items[o] != [] && t.heap[db].items[o][|t.heap[db].items[o]| - 1] == s.heap[db].items[o][n - 1]
    ensures var r := s.heap[db].items[o][n - 1]; var u := Released(t, db, o);
            if r.At? && r.block !in s.into.others && t.heap[r.block].locks <= 1 then LosesBlock(s, db, o, r.block)
            else Emptying(s, u, db, o, n - 1)
  {
    hide Local, Drained, Spared, LosesBlock, Released;
    EmptyingLast(s, t, db, o, n);
    var rs := s.heap[db].items[o];
    var r := rs[n - 1];
    if r.At? && r.block !in s.into.others && t.heap[r.block].locks <= 1 {
      LastLock(s, t, db, o, n);
    } else {
      LocalReleased(t, db, o);
      LocalTrans(s, t, Released(t, db, o), db);
      LocalBlocks(t, Released(t, db, o), db);
      DrainedStep(s.heap, t, Released(t, db, o), db, o, rs, n);
      SparedStep(s.into.others, t, Released(t, db, o), db, o, rs, n);
    }
  }

  lemma SparedStep(others: set<nat>, t: State, u: State, db: nat, o: int, rs: seq<Ref>, n: nat)
    requires 0 < n <= |rs| && Spared(others, t.heap, rs, n) && db in t.heap && o in t.heap[db].items
    requires t.heap[db].items[o] == rs[..n]
    requires rs[n - 1].At? ==> rs[n - 1].off == 0 && rs[n - 1].block in t.heap
    requires rs[n - 1].At? && rs[n - 1].block !in others ==> t.heap[rs[n - 1].block].locks > 1
    requires u == Released(t, db, o) && forall b :: b in u.heap <==> b in t.heap
    ensures Spared(others, u.heap, rs, n - 1)
  {
    hide Times, Released;
    forall b | b in u.heap && b !in others && Times(rs[..n - 1], b) < Times(rs, b) ensures u.heap[b].locks > 0 {
      TimesPrefix(rs, n - 1, b);
      ReleasedLocks(t, db, o, b);
    }
  }

  /** A container emptied without a loss was safe to empty. */
  lemma EmptyingEnds(s: State, t: State, db: nat, o: int)
    requires Emptying(s, t, db, o, 0)
    ensures Emptied(s, t, db, o) && !Loses(s, db, o)
  {
    var rs := s.heap[db].items[o];
    assert rs[..0] == [];
    forall b ensures !LosesBlock(s, db, o, b) {
      if b in s.heap && Times(rs, b) > 0 {
        assert b in t.heap && Times(rs[..0], b) < Times(rs, b);
      }
    }
  }

  lemma LosesFacts(s: State, db: nat, o: int, b: nat)
    requires db in s.heap && o in s.heap[db].items && LosesBlock(s, db, o, b)
    ensures Loses(s, db, o)
  {
  }

  lemma NothingToLose(s: State, db: nat, o: int)
    requires db in s.heap && o in s.heap[db].items
    requires forall i | 0 <= i < |s.heap[db].items[o]| ::
               s.heap[db].items[o][i] == Null || s.heap[db].items[o][i].block in s.into.others
    ensures !Loses(s, db, o)
  {
    forall b ensures !LosesBlock(s, db, o, b) {
      if Times(s.heap[db].items[o], b) > 0 {
        assert At(b, 0) in s.heap[db].items[o];
      }
    }
  }

  // ---------- lists ----------

  /** The first `i` slots of the resized list hold clones, the others are null. */
  ghost predicate ItemsCopied(memo: map<Ref, Ref>, from: seq<Ref>, to: seq<Ref>, i: nat) {
    && |to| == |from| && i <= |from|
    && (forall j | 0 <= j < i :: Corresponds(memo, from[j], to[j]))
    && (forall j | i <= j < |to| :: to[j] == Null)
  }

  /** Apart from block `db`, a copy that holds nothing is under way. */
  ghost predicate Outside(s: State, t: State, db: nat) {
    && Grown(s, t) && OthersKept(s, t, Some(db)) && t.pending == s.pending
    && db in s.heap && db in t.heap
  }

  lemma OutsideStep(s: State, t: State, t1: State, t2: State, db: nat, r: Ref, tmp: Ref)
    requires Outside(s, t, db) && Handed(t, t1, r, tmp) && Local(t1, t2, db)
    requires db in t2.heap && t2.pending == t1.pending - multiset{tmp}
    ensures Outside(s, t2, db) && db in t1.heap && SameButLocks(t.heap[db], t1.heap[db])
    ensures MemoGrows(t.memo, t2.memo) && r in t2.memo && t2.memo[r] == tmp
  {
    assert Local(t, t, db);
    AroundCopy(t, t, t1, t2, db, r, tmp);
    GrownMemo(t, t2);
    assert t1.pending == t.pending + multiset{tmp};
    hide Handed, Local, Grown, OthersKept;
    assert forall b | b in s.heap :: b in t.heap by { GrownHeap(s, t); }
    GrownTrans(s, t, t2);
    OthersTrans(s, t, t2, Some(db));
  }

  lemma GrownHeap(s: State, t: State)
    requires Grown(s, t)
    ensures forall b | b in s.heap :: b in t.heap
  {
  }

  ghost predicate ListFilling(src: Block, d: Block, e: Block, n: map<Ref, Ref>, o: int, i: nat) {
    && o in src.items && o in e.items && |e.items[o]| == |src.items[o]|
    && e == d.(items := d.items[o := e.items[o]], locks := e.locks)
    && ItemsCopied(n, src.items[o], e.items[o], i)
  }

  ghost predicate ListPartial(src: Block, s: State, t: State, db: nat, o: int, i: nat) {
    db in s.heap && db in t.heap && Outside(s, t, db) && ListFilling(src, s.heap[db], t.heap[db], t.memo, o, i)
  }

  lemma ListStart(src: Block, s: State, e: State, db: nat, o: int)
    requires Emptied(s, e, db, o) && o in src.items
    ensures ListPartial(src, s, Resized(e, db, o, |src.items[o]|), db, o, 0)
  {
  }

  lemma ItemsStep(m: map<Ref, Ref>, n: map<Ref, Ref>, from: seq<Ref>, to: seq<Ref>, i: nat, tmp: Ref)
    requires ItemsCopied(m, from, to, i) && i < |from| && MemoGrows(m, n)
    requires from[i] != Null && from[i] in n && n[from[i]] == tmp
    ensures ItemsCopied(n, from, to[i := tmp], i + 1)
  {
  }

  lemma ListStep(src: Block, s: State, t: State, t1: State, db: nat, o: int, i: nat, tmp: Ref)
    requires ListPartial(src, s, t, db, o, i) && i < |src.items[o]| && src.items[o][i] != Null && tmp.At?
    requires Handed(t, t1, src.items[o][i], tmp) && db in t1.heap && SameButLocks(t.heap[db], t1.heap[db])
    ensures ListPartial(src, s, ItemStored(t1, db, o, i, tmp), db, o, i + 1)
  {
    hide Handed, Local, Corresponds, Outside;
    var t2 := ItemStored(t1, db, o, i, tmp);
    LocalItem(t1, db, o, i, tmp);
    OutsideStep(s, t, t1, t2, db, src.items[o][i], tmp);
    ItemsStep(t.memo, t2.memo, src.items[o], t.heap[db].items[o], i, tmp);
  }

  lemma LocalItem(s: State, db: nat, o: int, i: nat, r: Ref)
    requires db in s.heap && o in s.heap[db].items && i < |s.heap[db].items[o]|
    ensures Local(s, ItemStored(s, db, o, i, r), db)
  {
  }

  lemma LocalEntry(s: State, db: nat, o: int, r: Ref, ks: seq<string>)
    requires db in s.heap && o in s.heap[db].items
    ensures Local(s, KeysStored(ItemAppended(s, db, o, r), db, o, ks), db)
  {
  }

  lemma ListEnd(src: Block, s: State, t: State, db: nat, o: int)
    requires LeafPresent(src, ListLeaf(o)) && db in s.heap && LeafPresent(s.heap[db], ListLeaf(o))
    requires ListPartial(src, s, t, db, o, |src.items[o]|)
    ensures Progress(src, s, t, db, [ListLeaf(o)], multiset{})
  {
    GrownMemo(s, t);
    ContainerDone(src, s.heap[db], t.heap[db], s.memo, t.memo, ListLeaf(o));
  }

  // ---------- dicts ----------

  ghost predicate DictFilling(src: Block, d: Block, e: Block, n: map<Ref, Ref>, o: int, i: nat) {
    && o in src.items && o in src.keys && o in e.items && o in e.keys
    && e == d.(items := d.items[o := e.items[o]], keys := d.keys[o := e.keys[o]], locks := e.locks)
    && i <= |src.items[o]| && i <= |src.keys[o]|
    && AllCorrespond(n, src.items[o][..i], e.items[o])
    && e.keys[o] == src.keys[o][..i]
  }

  ghost predicate DictPartial(src: Block, s: State, t: State, db: nat, o: int, i: nat) {
    db in s.heap && db in t.heap && Outside(s, t, db) && DictFilling(src, s.heap[db], t.heap[db], t.memo, o, i)
  }

  lemma DictStart(src: Block, s: State, e: State, db: nat, o: int)
    requires Emptied(s, e, db, o) && o in src.items && o in src.keys && o in s.heap[db].keys
    ensures DictPartial(src, s, KeysStored(e, db, o, []), db, o, 0)
  {
  }

  lemma EntriesStep(m: map<Ref, Ref>, n: map<Ref, Ref>, from: seq<Ref>, to: seq<Ref>, i: nat, tmp: Ref)
    requires i < |from| && AllCorrespond(m, from[..i], to) && MemoGrows(m, n)
    requires from[i] != Null && from[i] in n && n[from[i]] == tmp
    ensures AllCorrespond(n, from[..i + 1], to + [tmp])
  {
  }

  lemma DictStep(src: Block, s: State, t: State, t1: State, db: nat, o: int, i: nat, tmp: Ref)
    requires DictPartial(src, s, t, db, o, i) && i < |src.items[o]| && i < |src.keys[o]|
        && src.items[o][i] != Null && tmp.At?
    requires Handed(t, t1, src.items[o][i], tmp) && db in t1.heap && SameButLocks(t.heap[db], t1.heap[db])
    ensures var ks := t1.heap[db].keys[o] + [src.keys[o][i]];
            DictPartial(src, s, KeysStored(ItemAppended(t1, db, o, tmp), db, o, ks), db, o, i + 1)
  {
    hide Handed, Local, Corresponds, AllCorrespond, Outside;
    var ks := t1.heap[db].keys[o] + [src.keys[o][i]];
    var t2 := KeysStored(ItemAppended(t1, db, o, tmp), db, o, ks);
    LocalEntry(t1, db, o, tmp, ks);
    OutsideStep(s, t, t1, t2, db, src.items[o][i], tmp);
    EntriesStep(t.memo, t2.memo, src.items[o], t.heap[db].items[o], i, tmp);
    assert ks == src.keys[o][..i + 1];
  }

  lemma DictEnd(src: Block, s: State, t: State, db: nat, o: int)
    requires LeafPresent(src, DictLeaf(o)) && db in s.heap && LeafPresent(s.heap[db], DictLeaf(o))
    requires DictPartial(src, s, t, db, o, |src.items[o]|) && |src.keys[o]| == |src.items[o]|
    ensures Progress(src, s, t, db, [DictLeaf(o)], multiset{})
  {
    GrownMemo(s, t);
    assert src.items[o][..|src.items[o]|] == src.items[o] && src.keys[o][..|src.items[o]|] == src.keys[o];
    ContainerDone(src, s.heap[db], t.heap[db], s.memo, t.memo, DictLeaf(o));
  }

  // ---------- what a copy passes through ----------

  /** A copy of `sr` into block `db` that began in `s0` and has copied the leaves `ls`. */
  ghost predicate MidCopy(h0: Heap, scope: set<Ref>, s0: State, s: State, sr: Ref, db: nat, ls: seq<Leaf>) {
    && sr.At? && sr.block in h0 && Inv(h0, scope, s) && Filling(s, sr, db)
    && Progress(h0[sr.block], s0, s, db, ls, multiset{})
  }

  ghost predicate PassedAt(h0: Heap, scope: set<Ref>, s0: State, sr: Ref, db: nat, ls: seq<Leaf>, j: nat)
    requires j < |ls|
  {
    exists s :: MidCopy(h0, scope, s0, s, sr, db, ls[..j]) && !Loses(s, db, ls[j].off)
  }

  /** Every container among the leaves was emptied without a loss, when its turn came. */
  ghost predicate Passed(h0: Heap, scope: set<Ref>, s0: State, sr: Ref, db: nat, ls: seq<Leaf>) {
    forall j | 0 <= j < |ls| && ls[j].IsContainer() :: PassedAt(h0, scope, s0, sr, db, ls, j)
  }

  lemma PassedNoContainer(h0: Heap, scope: set<Ref>, s0: State, sr: Ref, db: nat, ls: seq<Leaf>)
    requires forall l | l in ls :: !l.IsContainer()
    ensures Passed(h0, scope, s0, sr, db, ls)
  {
  }

  lemma PassedContainer(h0: Heap, scope: set<Ref>, s: State, sr: Ref, db: nat, l: Leaf)
    requires sr.At? && sr.block in h0 && Inv(h0, scope, s) && Filling(s, sr, db) && db in s.heap
    requires !Loses(s, db, l.off)
    ensures Passed(h0, scope, s, sr, db, [l])
  {
    hide Inv, Loses, Progress;
    ProgressRefl(h0[sr.block], s, db);
    assert [l][..0] == [];
    assert MidCopy(h0, scope, s, s, sr, db, [l][..0]);
  }

  lemma PassedTrans(h0: Heap, scope: set<Ref>, s: State, t: State, sr: Ref, db: nat, ls: seq<Leaf>, ks: seq<Leaf>)
    requires sr.At? && sr.block in h0 && Progress(h0[sr.block], s, t, db, ls, multiset{})
    requires Passed(h0, scope, s, sr, db, ls) && Passed(h0, scope, t, sr, db, ks)
    ensures Passed(h0, scope, s, sr, db, ls + ks)
  {
    hide Inv, Loses, Progress, Filling;
    forall j | 0 <= j < |ls + ks| && (ls + ks)[j].IsContainer() ensures PassedAt(h0, scope, s, sr, db, ls + ks, j) {
      if j < |ls| {
        assert (ls + ks)[..j] == ls[..j];
        assert PassedAt(h0, scope, s, sr, db, ls, j);
      } else {
        var i := j - |ls|;
        assert (ls + ks)[..j] == ls + ks[..i];
        assert PassedAt(h0, scope, t, sr, db, ks, i);
        var u :| MidCopy(h0, scope, t, u, sr, db, ks[..i]) && !Loses(u, db, ks[i].off);
        ProgressTrans(h0[sr.block], s, t, u, db, ls, ks[..i]);
      }
    }
  }
}

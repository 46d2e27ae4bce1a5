/** How far a clone has come: what copying some leaves of one block changes and what it leaves alone. */
module CloneProgress {
  import opened Basics
  import opened ObjectModel
  import opened Layout
  import opened References
  import opened CloneInvariant

  /** The map has only grown, and every object that was added to it is completely copied. */
  ghost predicate Grown(s: State, t: State) {
    && MemoGrows(s.memo, t.memo) && t.into == s.into
    && (forall b | b in s.origin :: b in t.origin && t.origin[b] == s.origin[b])
    && (forall b | b in s.heap :: b in t.heap)
    && (forall r | r in s.done :: r in t.done)
    && (forall r | r in t.done :: r in s.done || r !in s.memo)
    && (forall r | r in t.memo :: r in s.memo || r in t.done)
  }

  ghost predicate OthersKept(s: State, t: State, db: Option<nat>) {
    forall b | b in s.heap && b in t.heap && db != Some(b) :: SameButLocks(s.heap[b], t.heap[b])
  }

  ghost predicate SameShape(d: Block, e: Block) {
    && e.classes == d.classes && e.vals.Keys == d.vals.Keys && e.ptrs.Keys == d.ptrs.Keys
    && e.items.Keys == d.items.Keys && e.keys.Keys == d.keys.Keys
  }

  /** Containers outside `ls` are as they were. */
  ghost predicate ContainersKept(d: Block, e: Block, ls: seq<Leaf>) {
    forall o | !Touches(ls, o) ::
      && (o in d.items && o in e.items ==> e.items[o] == d.items[o])
      && (o in d.keys && o in e.keys ==> e.keys[o] == d.keys[o])
  }

  /** A leaf that was copied before stays copied, or is copied again. */
  ghost predicate MatchesKept(src: Block, d: Block, e: Block, m: map<Ref, Ref>, n: map<Ref, Ref>) {
    forall l | LeafMatches(src, d, m, l) :: LeafMatches(src, e, n, l)
  }

  /** A pointer cell changes only by receiving the clone of what the source cell holds. */
  ghost predicate PtrsKept(src: Block, d: Block, e: Block, n: map<Ref, Ref>, ls: seq<Leaf>) {
    forall o | o in d.ptrs && o in e.ptrs ::
      e.ptrs[o] == d.ptrs[o] || (PtrLeaf(o) in ls && o in src.ptrs && Corresponds(n, src.ptrs[o], e.ptrs[o]))
  }

  ghost predicate BlockProgress(src: Block, d: Block, e: Block, m: map<Ref, Ref>, n: map<Ref, Ref>, ls: seq<Leaf>) {
    && SameShape(d, e)
    && LeavesMatch(src, e, n, ls)
    && MatchesKept(src, d, e, m, n)
    && ContainersKept(d, e, ls)
    && PtrsKept(src, d, e, n, ls)
  }

  /** From `s` to `t` the leaves `ls` of `src` were copied into block `db`, and `held` was handed over. */
  ghost predicate Progress(src: Block, s: State, t: State, db: nat, ls: seq<Leaf>, held: multiset<Ref>) {
    && Grown(s, t)
    && OthersKept(s, t, Some(db))
    && t.pending == s.pending + held
    && db in s.heap && db in t.heap
    && BlockProgress(src, s.heap[db], t.heap[db], s.memo, t.memo, ls)
  }

  lemma GrownTrans(s: State, t: State, u: State)
    requires Grown(s, t) && Grown(t, u)
    ensures Grown(s, u)
  {
  }

  lemma OthersTrans(s: State, t: State, u: State, db: Option<nat>)
    requires OthersKept(s, t, db) && OthersKept(t, u, db)
    requires forall b | b in s.heap :: b in t.heap
    ensures OthersKept(s, u, db)
  {
    forall b | b in s.heap && b in u.heap && db != Some(b) ensures SameButLocks(s.heap[b], u.heap[b]) {
      assert SameButLocks(s.heap[b], t.heap[b]) && SameButLocks(t.heap[b], u.heap[b]);
    }
  }

  lemma BlockProgressTrans(src: Block, d: Block, e: Block, f: Block,
          m: map<Ref, Ref>, n: map<Ref, Ref>, p: map<Ref, Ref>, ls: seq<Leaf>, ks: seq<Leaf>)
    requires BlockProgress(src, d, e, m, n, ls) && BlockProgress(src, e, f, n, p, ks) && MemoGrows(n, p)
    ensures BlockProgress(src, d, f, m, p, ls + ks)
  {
    forall o ensures Touches(ls + ks, o) <==> Touches(ls, o) || Touches(ks, o) {}
    forall l | l in ls + ks ensures LeafMatches(src, f, p, l) {
      if l !in ks { assert LeafMatches(src, e, n, l); }
    }
    forall l | LeafMatches(src, d, m, l) ensures LeafMatches(src, f, p, l) {
      assert LeafMatches(src, e, n, l);
    }
  }

  lemma ProgressTrans(src: Block, s: State, t: State, u: State, db: nat, ls: seq<Leaf>, ks: seq<Leaf>)
    requires Progress(src, s, t, db, ls, multiset{}) && Progress(src, t, u, db, ks, multiset{})
    ensures Progress(src, s, u, db, ls + ks, multiset{})
  {
    GrownTrans(s, t, u);
    OthersTrans(s, t, u, Some(db));
    BlockProgressTrans(src, s.heap[db], t.heap[db], u.heap[db], s.memo, t.memo, u.memo, ls, ks);
  }

  lemma ProgressRefl(src: Block, s: State, db: nat)
    requires db in s.heap
    ensures Progress(src, s, s, db, [], multiset{})
  {
  }

  /** A copy into another object: this block sees at most its own lock count change. */
  ghost predicate Handed(s: State, t: State, src: Ref, r: Ref) {
    && Grown(s, t)
    && OthersKept(s, t, None)
    && t.pending == s.pending + multiset{r}
    && src in t.memo && t.memo[src] == r
  }

  // ---------- one leaf at a time ----------

  lemma ClassDone(src: Block, d: Block, m: map<Ref, Ref>, l: Leaf)
    requires l.ClassLeaf? && LeafPresent(src, l) && LeafPresent(d, l)
    ensures BlockProgress(src, d, d, m, m, [l])
  {
  }

  lemma ValueDone(src: Block, d: Block, e: Block, m: map<Ref, Ref>, o: int)
    requires o in src.vals && o in d.vals && e == d.(vals := d.vals[o := src.vals[o]])
    ensures BlockProgress(src, d, e, m, m, [ValueLeaf(o)])
  {
  }

  lemma PtrDone(src: Block, d: Block, e: Block, m: map<Ref, Ref>, n: map<Ref, Ref>, o: int)
    requires MemoGrows(m, n) && o in src.ptrs && o in d.ptrs && o in e.ptrs
    requires e == d.(ptrs := d.ptrs[o := e.ptrs[o]], locks := e.locks)
    requires Corresponds(n, src.ptrs[o], e.ptrs[o])
    ensures BlockProgress(src, d, e, m, n, [PtrLeaf(o)])
  {
  }

  lemma ContainerDone(src: Block, d: Block, e: Block, m: map<Ref, Ref>, n: map<Ref, Ref>, l: Leaf)
    requires MemoGrows(m, n) && l.IsContainer() && LeafPresent(src, l) && LeafPresent(d, l)
    requires l.off in e.items && l.off in e.keys
    requires e == d.(items := d.items[l.off := e.items[l.off]], keys := d.keys[l.off := e.keys[l.off]],
        locks := e.locks)
    requires LeafMatches(src, e, n, l) && (l.ListLeaf? ==> e.keys[l.off] == d.keys[l.off])
    ensures BlockProgress(src, d, e, m, n, [l])
  {
    hide MatchesKept;
    ContainerMatchesKept(src, d, e, m, n, l);
    forall o | !Touches([l], o) ensures o != l.off {
      assert l == ListLeaf(l.off) || l == DictLeaf(l.off);
    }
  }

  /** A container that is emptied and filled again under another name is copied under both. */
  lemma ContainerMatchesKept(src: Block, d: Block, e: Block, m: map<Ref, Ref>, n: map<Ref, Ref>, l: Leaf)
    requires MemoGrows(m, n) && l.IsContainer() && LeafPresent(src, l) && LeafPresent(d, l)
    requires l.off in e.items && l.off in e.keys
    requires e == d.(items := d.items[l.off := e.items[l.off]], keys := d.keys[l.off := e.keys[l.off]],
        locks := e.locks)
    requires LeafMatches(src, e, n, l) && (l.ListLeaf? ==> e.keys[l.off] == d.keys[l.off])
    ensures MatchesKept(src, d, e, m, n)
  {
    forall k | LeafMatches(src, d, m, k) ensures LeafMatches(src, e, n, k) {
      if k.IsContainer() && k.off != l.off { assert e.items[k.off] == d.items[k.off]; }
    }
  }
}

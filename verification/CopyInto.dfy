/**
 Copying into an object that exists already.

 The destination is not in the copier's map. When a cycle leads back to the source, the source is
 therefore cloned a second time, and the destination is no copy of it in the sense of the clone theorem.
 */
module CopyInto {
  import opened Basics
  import opened ObjectModel
  import opened Layout
  import opened References
  import opened CloneInvariant
  import opened CloneProgress
  import opened CloneSteps
  import opened CloneContents
  import opened CloneTheorem
  import opened CopierModel

  // ---------- the two sides ----------

  /** The heap without the destination and the objects on its side. */
  ghost function SourceSide(h: Heap, into: Into): Heap {
    map b | b in h && b !in Existing(into) :: h[b]
  }

  /** One or more steps lead from `a` to `b`. */
  ghost predicate LeadsOn(h: Heap, a: Ref, b: Ref) {
    exists c :: Edge(h, a, c) && Reaches(h, c, b)
  }

  /** What a copy of `r` needs clones of. */
  ghost function After(h: Heap, r: Ref): set<Ref> {
    set b | b in h && IsHeapObject(h, At(b, 0)) && LeadsOn(h, r, At(b, 0)) :: At(b, 0)
  }

  /** The destination refers to objects on its side only, and every cell that refers to one has its lock. */
  ghost predicate DestOk(h: Heap, dest: Ref, others: set<nat>) {
    && IsHeapObject(h, dest) && BlockOk(h[dest.block]) && CloneBlockOk(others, h[dest.block])
    && dest.block !in others
    && (forall b | b in others :: b in h && RefersInto(h, h[b]))
    && (forall b | b in others + {dest.block} && b in h :: h[b].locks >= InDegree(h, At(b, 0)))
  }

  lemma EdgeTarget(h: Heap, a: Ref, b: Ref)
    requires SourceOk(h) && Edge(h, a, b)
    ensures IsHeapObject(h, b)
  {
    assert SourceBlockOk(h, h[a.block]);
  }

  lemma AfterClosed(h: Heap, r: Ref)
    requires SourceOk(h)
    ensures Closed(h, After(h, r)) && Covered(h, After(h, r), r)
  {
    hide SourceOk, Edge, Reaches;
    forall a, b | a in After(h, r) && Edge(h, a, b) ensures b in After(h, r) {
      var c :| Edge(h, r, c) && Reaches(h, c, a);
      ReachesStep(h, c, a, b);
      EdgeTarget(h, a, b);
    }
    forall b | Edge(h, r, b) ensures b in After(h, r) {
      ReachesSelf(h, b);
      EdgeTarget(h, r, b);
    }
  }

  // ---------- before the copy ----------

  lemma {:induction false} OuterLocksAre(h: Heap, bs: set<nat>, b: nat)
    requires forall c | c in bs :: c in h && h[c].locks >= InDegree(h, At(c, 0))
    ensures OuterLocks(h, bs)[At(b, 0)] == if b in bs then h[b].locks - InDegree(h, At(b, 0)) else 0
    decreases bs
  {
    hide InDegree;
    if bs != {} {
      var c := PickedFirst(h, bs);
      OuterLocksAre(h, bs - {c}, b);
    }
  }

  /** The object whose locks `OuterLocks` adds last. */
  lemma PickedFirst(h: Heap, bs: set<nat>) returns (c: nat)
    requires bs != {}
    ensures c in bs
    ensures var n := if c in h then h[c].locks - InDegree(h, At(c, 0)) else 0;
            OuterLocks(h, bs) == OuterLocks(h, bs - {c})[At(c, 0) := if n < 0 then 0 else n]
  {
    hide InDegree;
    c :| c in bs && OuterLocks(h, bs) ==
      var n := if c in h then h[c].locks - InDegree(h, At(c, 0)) else 0;
      OuterLocks(h, bs - {c})[At(c, 0) := if n < 0 then 0 else n];
  }

  ghost predicate ExistingOk(h: Heap, into: Into) {
    && (forall b | b in Existing(into) :: b in h && h[b].locks >= InDegree(h, At(b, 0)))
    && (forall b | b in into.others :: RefersInto(h, h[b]))
  }

  lemma Sides(h: Heap, into: Into, b: nat)
    requires ExistingOk(h, into)
    ensures b in h <==> b in SourceSide(h, into) || b in Existing(into)
    ensures b in SourceSide(h, into) ==> b !in Existing(into) && SourceSide(h, into)[b] == h[b]
    ensures b in Existing(into) <==> b in into.others || into.top == Some(b)
  {
  }

  lemma StartAccounted(h: Heap, h0: Heap, into: Into, source: Ref)
    requires ExistingOk(h, into) && h0 == SourceSide(h, into)
    ensures Accounted(h0, Start(h, into, source))
  {
    hide InDegree;
    forall b: nat
      ensures OuterLocks(h, Existing(into))[At(b, 0)]
           == if b in Existing(into) then h[b].locks - InDegree(h, At(b, 0)) else 0
    {
      OuterLocksAre(h, Existing(into), b);
    }
  }

  lemma StartInto(h: Heap, h0: Heap, scope: set<Ref>, into: Into, source: Ref)
    requires ExistingOk(h, into) && h0 == SourceSide(h, into)
    requires into.top.Some? ==>
               && into.top.value !in into.others && into.top.value in h && Covered(h0, scope, source)
               && CloneOk(h0, map[into.top.value := source], into, into.top.value, h[into.top.value])
    ensures Inv(h0, scope, Start(h, into, source))
  {
    hide Accounted, OuterLocks, Covered, CloneOk, InDegree, SourceSide, Existing, RefersInto;
    StartAccounted(h, h0, into, source);
    forall b: nat
      ensures b in h <==> b in h0 || b in into.others || into.top == Some(b)
      ensures b in h0 ==> b !in into.others && into.top != Some(b) && h0[b] == h[b]
    {
      Sides(h, into, b);
    }
  }

  // ---------- what a copy leaves ----------

  /** Complete clones of some objects behind the source, and a lock for every cell and no other. */
  ghost predicate Consistent(h0: Heap, source: Ref, h: Heap, others: set<nat>, k: Heap, memo: map<Ref, Ref>) {
    // the source is as it was, lock counts included
    && (forall b | b in h0 :: b in k && k[b] == h0[b])
    // the map leads to new blocks, one for each of the cloned objects
    && (forall r | r in memo :: r in After(h0, source) && IsHeapObject(k, memo[r]) && memo[r].block !in h)
    && (forall a, b | a in memo && b in memo && memo[a] == memo[b] :: a == b)
    && (forall b | b in k && b !in h :: exists r :: r in memo && memo[r] == At(b, 0))
    // it commutes with every cell of every cloned object
    && (forall r | r in memo :: Cloned(h0, k, memo, r))
    // a clone refers to nothing but what its class has copied
    && (forall r | r in memo && IsObject(h0, r) && IsObject(k, memo[r]) :: Tidy(ClassOf(h0, r), k[memo[r].block]))
    // the other objects have changed in their lock counts only
    && (forall b | b in others && b in h :: b in k && SameButLocks(h[b], k[b]))
    // locks have changed as the cells have that refer to the object
    && (forall b | b in k && b !in h0 ::
          k[b].locks - InDegree(k, At(b, 0)) == if b in h then h[b].locks - InDegree(h, At(b, 0)) else 0)
  }

  /** The persistent cells of the destination hold what those of the source do, or clones of it. */
  ghost predicate CopiedInto(h0: Heap, source: Ref, h: Heap, dest: Ref, k: Heap, memo: map<Ref, Ref>) {
    && IsHeapObject(h0, source) && IsHeapObject(h, dest) && IsHeapObject(k, dest)
    && (forall r | r in After(h0, source) :: r in memo)
    && BlockProgress(h0[source.block], h[dest.block], k[dest.block], map[], memo, ObjectLeaves(ClassOf(h0, source), 0))
  }

  lemma ExistingLocks(h: Heap, h0: Heap, into: Into, source: Ref, t: State, b: nat)
    requires ExistingOk(h, into) && h0 == SourceSide(h, into)
    requires LocksOwed(h0, t) && t.pending == OuterLocks(h, Existing(into)) && b in t.heap && b !in h0
    ensures t.heap[b].locks - InDegree(t.heap, At(b, 0)) == if b in h then h[b].locks - InDegree(h, At(b, 0)) else 0
  {
    hide InDegree, OuterLocks;
    OuterLocksAre(h, Existing(into), b);
  }

  /** A clone is a new block, and completely copied. */
  lemma EndImage(h: Heap, h0: Heap, into: Into, source: Ref, db: nat, t: State, r: Ref)
    requires ExistingOk(h, into) && h0 == SourceSide(h, into)
    requires Inv(h0, After(h0, source), t) && Outside(Start(h, into, source), t, db) && r in t.memo
    ensures r in After(h0, source) && IsHeapObject(t.heap, t.memo[r]) && t.memo[r].block !in h
    ensures Cloned(h0, t.heap, t.memo, r)
  {
    hide After, Accounted, OuterLocks, ObjectLeaves, ClonesOk, ClonesTidy, ExistingOk, SourceSide, LeavesMatch, IntoOk,
         Existing, OthersKept;
    assert r in t.done && t.into == into;
    Sides(h, into, t.memo[r].block);
  }

  lemma GrownStart(h: Heap, into: Into, source: Ref, t: State)
    requires Grown(Start(h, into, source), t)
    ensures t.into == into && forall b | b in h :: b in t.heap
  {
  }

  /** However the copy ends, unless a clone is destroyed. */
  lemma EndConsistent(h: Heap, h0: Heap, into: Into, source: Ref, db: nat, t: State)
    requires ExistingOk(h, into) && h0 == SourceSide(h, into) && into.top == Some(db) && db !in into.others
    requires Inv(h0, After(h0, source), t) && Outside(Start(h, into, source), t, db)
    ensures Consistent(h0, source, h, into.others, t.heap, t.memo)
  {
    hide After, InDegree, OuterLocks, ObjectLeaves, ClonesTidy, Tidy, IntoOk, ExistingOk, SourceSide, Existing, Cloned,
         DoneCloned, MemoOk, ClonesOk, Grown;
    GrownStart(h, into, source, t);
    forall b | b in t.heap && b !in h0
      ensures t.heap[b].locks - InDegree(t.heap, At(b, 0)) == if b in h then h[b].locks - InDegree(h, At(b, 0)) else 0
    {
      ExistingLocks(h, h0, into, source, t, b);
    }
    BijectionOf(h0, After(h0, source), t);
    TidyClones(h0, After(h0, source), t);
    forall r | r in t.memo
      ensures r in After(h0, source) && IsHeapObject(t.heap, t.memo[r]) && t.memo[r].block !in h
      ensures Cloned(h0, t.heap, t.memo, r)
    {
      EndImage(h, h0, into, source, db, t, r);
    }
    forall b ensures b in h <==> b in h0 || b in into.others || into.top == Some(b) {
      Sides(h, into, b);
    }
  }

  // ---------- the copy ----------

  lemma DestReady(h: Heap, h0: Heap, source: Ref, dest: Ref, others: set<nat>)
    requires DestOk(h, dest, others) && SourceOk(h0) && IsHeapObject(h0, source)
    requires h0 == SourceSide(h, Into(Some(dest.block), others)) && ClassOf(h0, source) == ClassOf(h, dest)
    ensures var s := Start(h, Into(Some(dest.block), others), source); var ls := ObjectLeaves(ClassOf(h, dest), 0);
            && Inv(h0, After(h0, source), s) && Fillable(h0, s, source, dest.block, ls)
            && (DistinctContainers(ls) ==> Unfilled(others, h[dest.block], ls))
  {
    hide SourceOk, After, OuterLocks, InDegree, ObjectLeaves, Covered, SourceSide, Inv, RefersInto;
    var into := Into(Some(dest.block), others);
    AfterClosed(h0, source);
    assert Live(map[dest.block := source], into) == others;
    StartInto(h, h0, After(h0, source), into, source);
  }

  lemma RefusedReady(h: Heap, h0: Heap, scope: set<Ref>, source: Ref, dest: Ref, others: set<nat>)
    requires DestOk(h, dest, others) && h0 == SourceSide(h, Into(Some(dest.block), others))
    ensures Inv(h0, scope, Start(h, Into(None, others + {dest.block}), source))
  {
    hide OuterLocks, InDegree, Inv;
    var into := Into(None, others + {dest.block});
    assert h0 == SourceSide(h, into);
    StartInto(h, h0, scope, into, source);
  }

  lemma DestFacts(h: Heap, dest: Ref, others: set<nat>, source: Ref)
    requires DestOk(h, dest, others)
    ensures IsHeapObject(h, dest) && dest.block !in others
    ensures var h0 := SourceSide(h, Into(Some(dest.block), others));
            IsObject(h0, source) ==> h0[source.block] == h[source.block] && IsObject(h, source)
    ensures ExistingOk(h, Into(Some(dest.block), others))
  {
    hide BlockOk, InDegree;
    assert forall b | b in others :: RefersInto(h, h[b]);
  }

  /** After a copy that succeeded everything behind the source is cloned. */
  lemma EndCopied(h: Heap, h0: Heap, source: Ref, dest: Ref, others: set<nat>, t: State)
    requires SourceOk(h0) && IsHeapObject(h0, source) && IsHeapObject(h, dest) && IsHeapObject(t.heap, dest)
    requires Consistent(h0, source, h, others, t.heap, t.memo)
    requires BlockProgress(h0[source.block], h[dest.block], t.heap[dest.block], map[], t.memo,
                           ObjectLeaves(ClassOf(h0, source), 0))
    ensures CopiedInto(h0, source, h, dest, t.heap, t.memo)
  {
    hide SourceOk, Edge, Cloned, LeavesMatch, InDegree, ObjectLeaves, Tidy;
    forall r | r in After(h0, source) ensures r in t.memo {
      var c :| Edge(h0, source, c) && Reaches(h0, c, r);
      SameTarget(h0, source, t.heap[dest.block], t.memo, t.memo, c);
      var p :| IsPath(h0, p) && p[0] == c && p[|p| - 1] == r;
      PathCloned(h0, t.heap, t.memo, p);
    }
  }

  lemma EndProgress(h: Heap, into: Into, source: Ref, src: Block, dest: Ref, t: State, ls: seq<Leaf>)
    requires IsHeapObject(h, dest) && Progress(src, Start(h, into, source), t, dest.block, ls, multiset{})
    ensures IsHeapObject(t.heap, dest) && Outside(Start(h, into, source), t, dest.block)
    ensures BlockProgress(src, h[dest.block], t.heap[dest.block], map[], t.memo, ls)
  {
    hide OuterLocks, ObjectLeaves, LeavesMatch;
  }

  /**
   Copying with a copier of its own into an object of the same class, whose side is apart from that of
   the source: fails exactly if some persistent pointer is null in the source and not in the
   destination. However it ends, unless a clone is destroyed, all clones are complete and all locks right.
   */
  method CopyInto(h: Heap, source: Ref, dest: Ref, others: set<nat>)
    returns (ok: bool, heap: Heap, pointers: map<Ref, Ref>, destroyed: Option<Ref>, ghost memo: map<Ref, Ref>)
    requires DestOk(h, dest, others)
    requires var h0 := SourceSide(h, Into(Some(dest.block), others)); SourceOk(h0) && IsHeapObject(h0, source)
    requires IsObject(h, source) && (ClassOf(h, source).clsid == ClassOf(h, dest).clsid ==>
                                       ClassOf(h, source) == ClassOf(h, dest))
    ensures ClassOf(h, source).clsid != ClassOf(h, dest).clsid ==> !ok && heap == h && destroyed.None?
    ensures ClassOf(h, source).clsid == ClassOf(h, dest).clsid && destroyed.None? ==>
              var h0 := SourceSide(h, Into(Some(dest.block), others));
              && (ok <==> !Clash(h[source.block], h[dest.block], ObjectLeaves(ClassOf(h, source), 0)))
              && (ok ==> CopiedInto(h0, source, h, dest, heap, memo))
              && Consistent(h0, source, h, others, heap, memo)
    ensures destroyed.Some? ==> StillMapped(heap, pointers, destroyed.value)
    ensures var h0 := SourceSide(h, Into(Some(dest.block), others));
            AllDistinct(h0, After(h0, source)) && DistinctContainers(ObjectLeaves(ClassOf(h, source), 0)) ==>
              destroyed.None?
  {
    hide Inv, SourceOk, Closed, AllDistinct, After, DestOk, SourceSide, Fillable, Unfilled, Progress, Passed, Clash,
         ObjectLeaves, DistinctContainers, Consistent, CopiedInto, InDegree, OuterLocks, Existing, Outside,
         ExistingOk, BlockProgress;
    DestFacts(h, dest, others, source);
    ghost var h0 := SourceSide(h, Into(Some(dest.block), others));
    ghost var scope := After(h0, source);
    AfterClosed(h0, source);
    var same := ClassOf(h, source).clsid == ClassOf(h, dest).clsid;
    var into := if same then Into(Some(dest.block), others) else Into(None, others + {dest.block});
    var copier := new Copier(h, into, source);
    if same {
      DestReady(h, h0, source, dest, others);
    } else {
      RefusedReady(h, h0, scope, source, dest, others);
    }
    var d;
    ok, d := copier.CopyTo(source, dest, h0, scope, source);
    heap, pointers, destroyed, memo := copier.heap, copier.pointers, copier.destroyed, copier.clones;
    if same && destroyed.None? {
      ghost var t := copier.Now();
      if ok {
        EndProgress(h, into, source, h0[source.block], dest, t, ObjectLeaves(ClassOf(h, source), 0));
      }
      EndConsistent(h, h0, into, source, dest.block, t);
      if ok {
        EndCopied(h, h0, source, dest, others, t);
      }
    }
  }

  // ---------- when the destination is a copy ----------

  /** An isomorphism onto copies that commutes with every cell and leads from the source to the destination. */
  ghost predicate CopyMap(h0: Heap, source: Ref, k: Heap, dest: Ref, m: map<Ref, Ref>) {
    && source in m && m[source] == dest
    && (forall r :: r in m <==> r in ReachSet(h0, source))
    && (forall a, b | a in m && b in m && m[a] == m[b] :: a == b)
    && (forall r | r in m :: Cloned(h0, k, m, r))
  }

  /** What is reached is the object itself, or behind it. */
  lemma ReachSplit(h: Heap, a: Ref, b: Ref)
    ensures Reaches(h, a, b) <==> a == b || LeadsOn(h, a, b)
  {
    hide Edge;
    if Reaches(h, a, b) && a != b {
      var p :| IsPath(h, p) && p[0] == a && p[|p| - 1] == b;
      var q := p[1..];
      assert Edge(h, p[0], p[1]);
      assert IsPath(h, q) && q[0] == p[1] && q[|q| - 1] == b by {
        forall i | 0 <= i < |q| - 1 ensures Edge(h, q[i], q[i + 1]) { assert Edge(h, p[i + 1], p[i + 2]); }
      }
      assert Reaches(h, p[1], b);
    }
    if a == b { ReachesSelf(h, a); }
    if LeadsOn(h, a, b) {
      var c :| Edge(h, a, c) && Reaches(h, c, b);
      var q :| IsPath(h, q) && q[0] == c && q[|q| - 1] == b;
      var p := [a] + q;
      assert IsPath(h, p) by {
        forall i | 0 <= i < |p| - 1 ensures Edge(h, p[i], p[i + 1]) {
          if i > 0 { assert Edge(h, q[i - 1], q[i]); }
        }
      }
    }
  }

  /** Commuting maps that agree somewhere agree on everything that is reached from there. */
  lemma {:induction false} AgreeAlong(h0: Heap, k: Heap, m: map<Ref, Ref>, n: map<Ref, Ref>, p: seq<Ref>)
    requires SourceOk(h0) && IsPath(h0, p) && p[0] in m && p[0] in n && m[p[0]] == n[p[0]]
    requires (forall r | r in m :: Cloned(h0, k, m, r)) && (forall r | r in n :: Cloned(h0, k, n, r))
    ensures var b := p[|p| - 1]; b in m && b in n && m[b] == n[b]
  {
    hide SourceOk, Edge, LeavesMatch;
    if |p| > 1 {
      var q := p[..|p| - 1];
      var a := q[|q| - 1];
      assert IsPath(h0, q) by {
        forall i | 0 <= i < |q| - 1 ensures Edge(h0, q[i], q[i + 1]) { assert Edge(h0, p[i], p[i + 1]); }
      }
      AgreeAlong(h0, k, m, n, q);
      assert Edge(h0, p[|p| - 2], p[|p| - 1]);
      SameTarget(h0, a, k[m[a].block], m, n, p[|p| - 1]);
    }
  }

  /** A map that leads to the destination disagrees with the copier's about a source that is cloned again. */
  lemma NoCopyOnCycle(h0: Heap, source: Ref, h: Heap, dest: Ref, others: set<nat>, k: Heap, memo: map<Ref, Ref>,
          m: map<Ref, Ref>)
    requires SourceOk(h0) && Consistent(h0, source, h, others, k, memo)
    requires CopiedInto(h0, source, h, dest, k, memo) && LeadsOn(h0, source, source)
    ensures !CopyMap(h0, source, k, dest, m)
  {
    hide SourceOk, Edge, LeavesMatch, InDegree, ReachSet, After, Tidy;
    if CopyMap(h0, source, k, dest, m) {
      var c :| Edge(h0, source, c) && Reaches(h0, c, source);
      assert Cloned(h0, k, m, source);
      SameTarget(h0, source, k[dest.block], m, memo, c);
      var p :| IsPath(h0, p) && p[0] == c && p[|p| - 1] == source;
      AgreeAlong(h0, k, m, memo, p);
      assert false;
    }
  }

  lemma MemoIsAfter(h0: Heap, source: Ref, h: Heap, dest: Ref, others: set<nat>, k: Heap, memo: map<Ref, Ref>)
    requires Consistent(h0, source, h, others, k, memo) && CopiedInto(h0, source, h, dest, k, memo)
    ensures forall r :: r in memo <==> r in After(h0, source)
    ensures source in memo <==> LeadsOn(h0, source, source)
  {
    hide InDegree, Cloned, BlockProgress, LeadsOn, SameButLocks, Tidy;
  }

  /** What is reached, once the source itself is counted in. */
  lemma ReachSetIs(h: Heap, r: Ref)
    requires IsHeapObject(h, r)
    ensures forall x :: x in ReachSet(h, r) <==> x == r || x in After(h, r)
  {
    hide Reaches, LeadsOn;
    forall x ensures Reaches(h, r, x) <==> x == r || LeadsOn(h, r, x) {
      ReachSplit(h, r, x);
    }
  }

  /** The destination holds what a clone of the source would. */
  lemma SourceCloned(h0: Heap, source: Ref, h: Heap, dest: Ref, k: Heap, memo: map<Ref, Ref>)
    requires CopiedInto(h0, source, h, dest, k, memo) && source !in memo
    ensures Cloned(h0, k, memo[source := dest], source)
  {
    hide ObjectLeaves, LeafMatches, After;
    var m := memo[source := dest];
    forall l | l in ObjectLeaves(ClassOf(h0, source), 0)
      ensures LeafMatches(h0[source.block], k[dest.block], m, l)
    {
      LeafKept(h0[source.block], k[dest.block], k[dest.block], memo, m, l);
    }
  }

  lemma SameClone(h0: Heap, k: Heap, m: map<Ref, Ref>, n: map<Ref, Ref>, r: Ref)
    requires Cloned(h0, k, m, r) && MemoGrows(m, n)
    ensures Cloned(h0, k, n, r)
  {
    ClonedKept(h0, k, k, m, n, r);
  }

  lemma BothExist(h0: Heap, source: Ref, h: Heap, dest: Ref, k: Heap, memo: map<Ref, Ref>)
    requires CopiedInto(h0, source, h, dest, k, memo)
    ensures IsHeapObject(h0, source) && IsHeapObject(h, dest)
  {
    hide BlockProgress, After;
  }

  lemma ClonesApart(h0: Heap, source: Ref, h: Heap, others: set<nat>, k: Heap, memo: map<Ref, Ref>)
    requires Consistent(h0, source, h, others, k, memo)
    ensures forall r | r in memo :: Cloned(h0, k, memo, r) && memo[r].At? && memo[r].block !in h
    ensures forall a, b | a in memo && b in memo && memo[a] == memo[b] :: a == b
  {
    hide InDegree, After, Cloned, SameButLocks, Tidy;
  }

  /** Without a cycle the copier's map, with the destination for the source, is complete. */
  lemma CopyWithoutCycle(h0: Heap, source: Ref, h: Heap, dest: Ref, others: set<nat>, k: Heap, memo: map<Ref, Ref>)
    requires Consistent(h0, source, h, others, k, memo) && CopiedInto(h0, source, h, dest, k, memo)
    requires !LeadsOn(h0, source, source)
    ensures CopyMap(h0, source, k, dest, memo[source := dest])
  {
    hide Consistent, CopiedInto, LeadsOn, ReachSet, After, Cloned;
    var m := memo[source := dest];
    BothExist(h0, source, h, dest, k, memo);
    MemoIsAfter(h0, source, h, dest, others, k, memo);
    ReachSetIs(h0, source);
    SourceCloned(h0, source, h, dest, k, memo);
    ClonesApart(h0, source, h, others, k, memo);
    forall r | r in memo ensures Cloned(h0, k, m, r) {
      SameClone(h0, k, memo, m, r);
    }
  }

  /**
   The source is cloned a second time if and only if a cycle leads back to it; and if and only if none
   does, the destination has become a copy of it together with everything that it reaches.
   */
  lemma CopyUnlessCycle(h0: Heap, source: Ref, h: Heap, dest: Ref, others: set<nat>, k: Heap, memo: map<Ref, Ref>)
    requires SourceOk(h0) && Consistent(h0, source, h, others, k, memo) && CopiedInto(h0, source, h, dest, k, memo)
    ensures source in memo <==> LeadsOn(h0, source, source)
    ensures (exists m :: CopyMap(h0, source, k, dest, m)) <==> !LeadsOn(h0, source, source)
  {
    hide SourceOk, Consistent, CopiedInto, CopyMap, LeadsOn;
    MemoIsAfter(h0, source, h, dest, others, k, memo);
    if LeadsOn(h0, source, source) {
      forall m ensures !CopyMap(h0, source, k, dest, m) {
        NoCopyOnCycle(h0, source, h, dest, others, k, memo, m);
      }
    } else {
      CopyWithoutCycle(h0, source, h, dest, others, k, memo);
    }
  }
}

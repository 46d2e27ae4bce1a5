/** What a finished clone is: an isomorphic copy of everything reachable, with exact lock counts. */
module CloneTheorem {
  import opened Basics
  import opened ObjectModel
  import opened Layout
  import opened References
  import opened CloneInvariant
  import opened CloneProgress
  import opened CloneSteps
  import opened CloneContents

  /** The heap objects that `root` reaches through persistent members and container items. */
  ghost function ReachSet(h: Heap, root: Ref): set<Ref> {
    set b | b in h && IsHeapObject(h, At(b, 0)) && Reaches(h, root, At(b, 0)) :: At(b, 0)
  }

  ghost predicate IsCloneOf(h0: Heap, root: Ref, h: Heap, memo: map<Ref, Ref>, dest: Ref) {
    // the source is as it was, lock counts included
    && (forall b | b in h0 :: b in h && h[b] == h0[b])
    // the map is a bijection between what the root reaches and the new blocks
    && (forall r :: r in memo <==> r in ReachSet(h0, root))
    && (forall r | r in memo :: IsHeapObject(h, memo[r]) && memo[r].block !in h0)
    && (forall a, b | a in memo && b in memo && memo[a] == memo[b] :: a == b)
    && (forall b | b in h && b !in h0 :: exists r :: r in memo && memo[r] == At(b, 0))
    // it commutes with every cell of every object
    && (forall r | r in memo :: Cloned(h0, h, memo, r))
    // a clone refers to nothing but what its class has copied
    && (forall r | r in memo && IsObject(h0, r) && IsObject(h, memo[r]) :: Tidy(ClassOf(h0, r), h[memo[r].block]))
    // every lock on a clone is a cell that refers to it, or the reference handed to the caller
    && (forall b | b in h && b !in h0 :: h[b].locks == InDegree(h, At(b, 0)) + One(At(b, 0) == dest))
    && root in memo && memo[root] == dest
  }

  lemma ReachSetClosed(h: Heap, root: Ref)
    requires SourceOk(h)
    ensures Closed(h, ReachSet(h, root))
  {
    forall a, b | a in ReachSet(h, root) && Edge(h, a, b) ensures b in ReachSet(h, root) {
      var l :| l in ObjectLeaves(ClassOf(h, a), 0) && LeafTarget(h[a.block], l, b);
      assert SourceBlockOk(h, h[a.block]);
      ReachesStep(h, root, a, b);
    }
  }

  lemma StartInv(h: Heap, scope: set<Ref>)
    ensures Inv(h, scope, Empty(h))
  {
  }

  /** Two maps that lead from the cells of an object to those of the same block agree on its targets. */
  lemma SameTarget(h0: Heap, a: Ref, dst: Block, m: map<Ref, Ref>, n: map<Ref, Ref>, b: Ref)
    requires SourceOk(h0) && Edge(h0, a, b)
    requires LeavesMatch(h0[a.block], dst, m, ObjectLeaves(ClassOf(h0, a), 0))
    requires LeavesMatch(h0[a.block], dst, n, ObjectLeaves(ClassOf(h0, a), 0))
    ensures b in m && b in n && m[b] == n[b]
  {
    var src := h0[a.block];
    var l :| l in ObjectLeaves(ClassOf(h0, a), 0) && LeafTarget(src, l, b);
    assert IsHeapObject(h0, b) by { assert SourceBlockOk(h0, src); }
    assert LeafMatches(src, dst, m, l) && LeafMatches(src, dst, n, l);
    if l.IsContainer() {
      var i :| 0 <= i < |src.items[l.off]| && src.items[l.off][i] == b;
      assert Corresponds(m, src.items[l.off][i], dst.items[l.off][i]);
      assert Corresponds(n, src.items[l.off][i], dst.items[l.off][i]);
    }
  }

  lemma {:induction false} PathCloned(h0: Heap, h: Heap, memo: map<Ref, Ref>, p: seq<Ref>)
    requires SourceOk(h0) && IsPath(h0, p) && p[0] in memo
    requires forall r | r in memo :: Cloned(h0, h, memo, r)
    ensures p[|p| - 1] in memo
  {
    if |p| > 1 {
      var q := p[..|p| - 1];
      assert IsPath(h0, q) by {
        forall i | 0 <= i < |q| - 1 ensures Edge(h0, q[i], q[i + 1]) {
          assert Edge(h0, p[i], p[i + 1]);
        }
      }
      PathCloned(h0, h, memo, q);
      var a := p[|p| - 2];
      assert Edge(h0, p[|p| - 2], p[|p| - 1]);
      SameTarget(h0, a, h[memo[a].block], memo, memo, p[|p| - 1]);
    }
  }

  lemma ReachedAreCloned(h0: Heap, root: Ref, h: Heap, memo: map<Ref, Ref>)
    requires SourceOk(h0) && root in memo
    requires forall r | r in memo :: Cloned(h0, h, memo, r)
    ensures forall r | r in ReachSet(h0, root) :: r in memo
  {
    forall r | r in ReachSet(h0, root) ensures r in memo {
      var p :| IsPath(h0, p) && p[0] == root && p[|p| - 1] == r;
      PathCloned(h0, h, memo, p);
    }
  }

  lemma BijectionOf(h0: Heap, scope: set<Ref>, s: State)
    requires MemoOk(h0, scope, s) && ClonesOk(h0, s)
    ensures forall r | r in s.memo :: r in scope && s.memo[r].At? && s.memo[r].block !in h0
    ensures forall a, b | a in s.memo && b in s.memo && s.memo[a] == s.memo[b] :: a == b
    ensures forall b | b in s.heap && b !in h0 && b !in s.into.others && s.into.top != Some(b) ::
              exists r :: r in s.memo && s.memo[r] == At(b, 0)
  {
    forall a, b | a in s.memo && b in s.memo && s.memo[a] == s.memo[b] ensures a == b {
      assert s.origin[s.memo[a].block] == a && s.origin[s.memo[b].block] == b;
    }
    forall b | b in s.heap && b !in h0 && b !in s.into.others && s.into.top != Some(b)
      ensures exists r :: r in s.memo && s.memo[r] == At(b, 0)
    {
      assert CloneOk(h0, s.origin, s.into, b, s.heap[b]);
      assert s.origin[b] in s.memo && s.memo[s.origin[b]] == At(b, 0);
    }
  }

  function Empty(h: Heap): State { State(h, map[], map[], {}, multiset{}, Nothing) }

  lemma AllDone(h0: Heap, t: State, root: Ref, dest: Ref)
    requires Handed(Empty(h0), t, root, dest) && DoneCloned(h0, t)
    ensures forall r | r in t.memo :: Cloned(h0, t.heap, t.memo, r)
    ensures root in t.memo && t.memo[root] == dest && t.pending == multiset{dest} && t.into == Nothing
  {
    assert Grown(Empty(h0), t);
  }

  lemma LocksAre(h0: Heap, t: State, dest: Ref)
    requires LocksOwed(h0, t) && t.pending == multiset{dest}
    ensures forall b | b in t.heap && b !in h0 :: t.heap[b].locks == InDegree(t.heap, At(b, 0)) + One(At(b, 0) == dest)
  {
    hide InDegree;
  }

  lemma ImagesAre(h0: Heap, t: State)
    requires forall r | r in t.memo :: Cloned(h0, t.heap, t.memo, r)
    ensures forall r | r in t.memo :: IsHeapObject(t.heap, t.memo[r])
  {
  }

  /** A run of the copier from an empty map leaves a clone. */
  lemma FinishedIsClone(h0: Heap, root: Ref, t: State, dest: Ref)
    requires SourceOk(h0) && IsHeapObject(h0, root)
    requires Inv(h0, ReachSet(h0, root), t)
    requires Handed(Empty(h0), t, root, dest)
    ensures IsCloneOf(h0, root, t.heap, t.memo, dest)
  {
    hide Handed, SourceOk, MemoOk, ClonesOk, ClonesTidy, Tidy, DoneCloned, Accounted, Cloned, ReachSet, InDegree;
    TidyClones(h0, ReachSet(h0, root), t);
    AllDone(h0, t, root, dest);
    BijectionOf(h0, ReachSet(h0, root), t);
    ReachedAreCloned(h0, root, t.heap, t.memo);
    ImagesAre(h0, t);
    assert LocksOwed(h0, t) by { AccountedLocks(h0, t); }
    LocksAre(h0, t, dest);
  }

  lemma TidyClones(h0: Heap, scope: set<Ref>, t: State)
    requires MemoOk(h0, scope, t) && ClonesTidy(h0, t)
    ensures forall r | r in t.memo && IsObject(h0, r) && IsObject(t.heap, t.memo[r]) ::
              Tidy(ClassOf(h0, r), t.heap[t.memo[r].block])
  {
    hide Tidy;
  }

  lemma AccountedLocks(h0: Heap, t: State)
    requires Accounted(h0, t)
    ensures LocksOwed(h0, t)
  {
  }

  // ---------- what a client can see of a clone ----------

  datatype Step = Deref(off: int) | Index(off: int, i: nat) | Lookup(off: int, key: string)

  /** Whether the class of an object has the cell that a step reads. */
  predicate HasStep(cls: ClassInfo, st: Step) {
    match st
    case Deref(o) => PtrLeaf(o) in ObjectLeaves(cls, 0)
    case Index(o, _) => ListLeaf(o) in ObjectLeaves(cls, 0)
    case Lookup(o, _) => DictLeaf(o) in ObjectLeaves(cls, 0)
  }

  /** One step of navigation; null when the cell is missing, empty or out of range. */
  function Take(h: Heap, r: Ref, st: Step): Ref {
    if !IsHeapObject(h, r) || !HasStep(ClassOf(h, r), st) then Null else
      var b := h[r.block];
      match st
      case Deref(o) => if o in b.ptrs then b.ptrs[o] else Null
      case Index(o, i) => if o in b.items && i < |b.items[o]| then b.items[o][i] else Null
      case Lookup(o, key) =>
        if o !in b.items || o !in b.keys then Null else
          var i := IndexOf(b.keys[o], key);
          if i < |b.keys[o]| && i < |b.items[o]| then b.items[o][i] else Null
  }

  function Follow(h: Heap, r: Ref, path: seq<Step>): Ref
    decreases |path|
  {
    if path == [] then r else Follow(h, Take(h, r, path[0]), path[1..])
  }

  function Image(memo: map<Ref, Ref>, r: Ref): Ref {
    if r in memo then memo[r] else Null
  }

  ghost predicate SameValues(h0: Heap, r: Ref, h: Heap, d: Ref) {
    && IsHeapObject(h0, r) && IsHeapObject(h, d) && ClassOf(h, d) == ClassOf(h0, r)
    && forall o | ValueLeaf(o) in ObjectLeaves(ClassOf(h0, r), 0) ::
         o in h0[r.block].vals && o in h[d.block].vals && h[d.block].vals[o] == h0[r.block].vals[o]
  }

  lemma ClonedClass(h0: Heap, h: Heap, memo: map<Ref, Ref>, r: Ref)
    requires Cloned(h0, h, memo, r) && memo[r].off == 0
    ensures ClassOf(h, memo[r]) == ClassOf(h0, r)
    ensures SameValues(h0, r, h, memo[r])
  {
    var ls := ObjectLeaves(ClassOf(h0, r), 0);
    assert ls[0] == ClassLeaf(0, ClassOf(h0, r));
    assert LeafMatches(h0[r.block], h[memo[r].block], memo, ls[0]);
    forall o | ValueLeaf(o) in ls
      ensures o in h0[r.block].vals && o in h[memo[r].block].vals && h[memo[r].block].vals[o] == h0[r.block].vals[o]
    {
      assert LeafMatches(h0[r.block], h[memo[r].block], memo, ValueLeaf(o));
    }
  }

  /** One step from the clone of an object leads to the clone of where it leads from the object. */
  lemma TakeCommutes(h0: Heap, h: Heap, memo: map<Ref, Ref>, r: Ref, st: Step)
    requires Cloned(h0, h, memo, r) && memo[r].off == 0 && r.off == 0 && Null !in memo
    ensures Take(h, memo[r], st) == Image(memo, Take(h0, r, st))
    ensures Take(h0, r, st) == Null || Take(h0, r, st) in memo
  {
    ClonedClass(h0, h, memo, r);
    var cls := ClassOf(h0, r);
    if HasStep(cls, st) {
      var l := match st case Deref(o) => PtrLeaf(o) case Index(o, _) => ListLeaf(o) case Lookup(o, _) => DictLeaf(o);
      hide ObjectLeaves;
      assert LeafMatches(h0[r.block], h[memo[r].block], memo, l);
    }
  }

  /**
   Whatever path a client follows, through pointers, list indices and dict keys, the clone of the
   root leads to the clone of what the root leads to, where it finds the same class and values.
   */
  lemma {:induction false} FollowCommutes(h0: Heap, root: Ref, h: Heap, memo: map<Ref, Ref>, dest: Ref, r: Ref,
          path: seq<Step>)
    requires IsCloneOf(h0, root, h, memo, dest) && r in memo
    ensures Follow(h, memo[r], path) == Image(memo, Follow(h0, r, path))
    ensures Follow(h0, r, path) != Null ==> SameValues(h0, Follow(h0, r, path), h, Follow(h, memo[r], path))
    decreases |path|
  {
    hide IsCloneOf, Cloned, SameValues, ReachSet, Take;
    CloneMemo(h0, root, h, memo, dest);
    if path == [] {
      ClonedClass(h0, h, memo, r);
    } else {
      TakeCommutes(h0, h, memo, r, path[0]);
      var next := Take(h0, r, path[0]);
      if next == Null {
        NullStays(h0, path[1..]);
        NullStays(h, path[1..]);
      } else {
        FollowCommutes(h0, root, h, memo, dest, next, path[1..]);
      }
    }
  }

  lemma CloneMemo(h0: Heap, root: Ref, h: Heap, memo: map<Ref, Ref>, dest: Ref)
    requires IsCloneOf(h0, root, h, memo, dest)
    ensures forall r | r in memo :: Cloned(h0, h, memo, r) && r.At? && r.off == 0 && memo[r].At? && memo[r].off == 0
    ensures Null !in memo
  {
  }

  lemma {:induction false} NullStays(h: Heap, path: seq<Step>)
    ensures Follow(h, Null, path) == Null
  {
    if path != [] {
      NullStays(h, path[1..]);
    }
  }
}

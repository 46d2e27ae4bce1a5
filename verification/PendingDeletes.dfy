/**
 Deferred destruction: objects without locks wait in a queue, and deleting one releases the
 references it holds, which may leave more objects without locks.

 Objects are numbered. What gets deleted does not depend on the order, on the deferral settings
 or on the clock: it is the least set closed under "all locks were released".
 */
module PendingDeletes {

  import opened Basics

  type Obj = nat

  /** Before anything is released: what each object's destructor releases, and every lock count. */
  datatype Heap = Heap(owns: seq<seq<Obj>>, locks: seq<int>)

  /** `done[i]` references of `i` are released; `dropped` are the clients' own releases. */
  datatype State = State(
    locks: seq<int>, pending: seq<Obj>, freed: seq<Obj>, dropped: seq<Obj>, done: seq<nat>, dying: set<Obj>)

  predicate IsObj(h: Heap, o: int) { 0 <= o < |h.owns| }

  ghost function All(h: Heap): set<Obj> { set i | 0 <= i < |h.owns| && IsObj(h, i) }

  ghost function Elems(s: seq<Obj>): set<Obj> { set o | o in s }

  function Count(s: seq<Obj>, o: Obj): nat { multiset(s)[o] }

  // ---------- counting references ----------

  /** The references to `o` among the first `k` objects, counting only those in `x`. */
  ghost function From(owns: seq<seq<Obj>>, x: set<Obj>, k: nat, o: Obj): nat
    requires k <= |owns|
  {
    if k == 0 then 0 else From(owns, x, k - 1, o) + if k - 1 in x then Count(owns[k - 1], o) else 0
  }

  /** The references to `o` already released by the first `k` objects. */
  ghost function Released(owns: seq<seq<Obj>>, done: seq<nat>, k: nat, o: Obj): nat
    requires DoneOk(owns, done) && k <= |owns|
  {
    if k == 0 then 0 else Released(owns, done, k - 1, o) + Count(owns[k - 1][..done[k - 1]], o)
  }

  ghost predicate DoneOk(owns: seq<seq<Obj>>, done: seq<nat>) {
    |owns| == |done| && forall i | 0 <= i < |owns| :: done[i] <= |owns[i]|
  }

  lemma CountPrefix(s: seq<Obj>, k: nat, o: Obj)
    requires k < |s|
    ensures Count(s[..k + 1], o) == Count(s[..k], o) + if s[k] == o then 1 else 0
  {
    assert s[..k + 1] == s[..k] + [s[k]];
  }

  lemma CountTaken(s: seq<Obj>, k: nat, o: Obj)
    requires k <= |s|
    ensures Count(s[..k], o) <= Count(s, o)
    ensures k == |s| ==> Count(s[..k], o) == Count(s, o)
  {
    assert s == s[..k] + s[k..];
    if k == |s| { assert s[..k] == s; }
  }

  lemma {:induction false} OneReleased(owns: seq<seq<Obj>>, done: seq<nat>, i: nat, k: nat, o: Obj)
    requires DoneOk(owns, done) && k <= |owns| && i < |owns| && done[i] < |owns[i]|
    ensures DoneOk(owns, done[i := done[i] + 1])
    ensures Released(owns, done[i := done[i] + 1], k, o)
         == Released(owns, done, k, o) + if i < k && owns[i][done[i]] == o then 1 else 0
  {
    if k > 0 {
      OneReleased(owns, done, i, k - 1, o);
      if i == k - 1 { CountPrefix(owns[i], done[i], o); }
    }
  }

  /** Only objects of `x` release; when they have released everything, that is all `x` holds. */
  lemma {:induction false} ReleasedFrom(owns: seq<seq<Obj>>, done: seq<nat>, x: set<Obj>, k: nat, o: Obj)
    requires DoneOk(owns, done) && k <= |owns|
    requires forall i | 0 <= i < |owns| && done[i] > 0 :: i in x
    ensures Released(owns, done, k, o) <= From(owns, x, k, o)
    ensures (forall i | 0 <= i < |owns| && i in x :: done[i] == |owns[i]|) ==>
              Released(owns, done, k, o) == From(owns, x, k, o)
  {
    if k > 0 {
      ReleasedFrom(owns, done, x, k - 1, o);
      CountTaken(owns[k - 1], done[k - 1], o);
      if done[k - 1] == 0 { assert owns[k - 1][..0] == []; }
    }
  }

  lemma {:induction false} FromMonotone(owns: seq<seq<Obj>>, x: set<Obj>, y: set<Obj>, k: nat, o: Obj)
    requires k <= |owns| && x <= y
    ensures From(owns, x, k, o) <= From(owns, y, k, o)
  {
    if k > 0 { FromMonotone(owns, x, y, k - 1, o); }
  }

  lemma {:induction false} NothingReleased(owns: seq<seq<Obj>>, done: seq<nat>, k: nat, o: Obj)
    requires DoneOk(owns, done) && k <= |owns| && forall i | 0 <= i < |done| :: done[i] == 0
    ensures Released(owns, done, k, o) == 0
  {
    if k > 0 {
      NothingReleased(owns, done, k - 1, o);
      assert owns[k - 1][..done[k - 1]] == [];
    }
  }

  // ---------- what should be deleted ----------

  ghost function Held(h: Heap, x: set<Obj>, o: Obj): nat { From(h.owns, x, |h.owns|, o) }

  /** Every object is alive and every reference held, and every lock a client gives up, is counted. */
  ghost predicate WellFormed(h: Heap, dropped: seq<Obj>) {
    && |h.locks| == |h.owns|
    && (forall i, j | 0 <= i < |h.owns| && 0 <= j < |h.owns[i]| :: h.owns[i][j] < |h.owns|)
    && (forall o | 0 <= o < |h.locks| :: h.locks[o] > 0 && h.locks[o] >= Held(h, All(h), o) + Count(dropped, o))
  }

  /** All locks of `o` were given up by clients or by the objects in `x`. */
  ghost predicate Abandoned(h: Heap, dropped: seq<Obj>, x: set<Obj>, o: Obj)
    requires |h.locks| == |h.owns|
  {
    0 <= o < |h.owns| && h.locks[o] <= Held(h, x, o) + Count(dropped, o)
  }

  ghost predicate Closed(h: Heap, dropped: seq<Obj>, x: set<Obj>)
    requires |h.locks| == |h.owns|
  {
    forall o | 0 <= o < |h.owns| :: Abandoned(h, dropped, x, o) ==> o in x
  }

  ghost predicate LeastClosed(h: Heap, dropped: seq<Obj>, x: set<Obj>)
    requires |h.locks| == |h.owns|
  {
    Closed(h, dropped, x) && forall y | Closed(h, dropped, y) :: x <= y
  }

  lemma LeastUnique(h: Heap, dropped: seq<Obj>, x: set<Obj>, y: set<Obj>)
    requires |h.locks| == |h.owns| && LeastClosed(h, dropped, x) && LeastClosed(h, dropped, y)
    ensures x == y
  {
  }

  // ---------- invariant ----------

  ghost predicate Shape(h: Heap, s: State) {
    && WellFormed(h, s.dropped) && |s.locks| == |h.owns| && DoneOk(h.owns, s.done)
    && s.dying <= All(h)
    && (forall i | 0 <= i < |s.done| && s.done[i] > 0 :: i in s.dying)
  }

  /** A lock less for each release; `debt` is the object of a release not yet carried out. */
  ghost predicate Accounted(h: Heap, s: State, debt: int)
    requires Shape(h, s)
  {
    forall o | 0 <= o < |s.locks| ::
      s.locks[o] + Released(h.owns, s.done, |h.owns|, o) + Count(s.dropped, o)
      == h.locks[o] + if o == debt then 1 else 0
  }

  /** Without locks are exactly the objects waiting or being deleted, and `orphan`. */
  ghost predicate Queued(s: State, orphan: int) {
    && NoDup(s.pending) && (forall o | o in s.pending :: 0 <= o < |s.locks| && o !in s.dying)
    && (forall o | 0 <= o < |s.locks| && o != orphan :: s.locks[o] == 0 <==> o in s.dying || o in s.pending)
    && (0 <= orphan < |s.locks| ==> s.locks[orphan] == 0 && orphan !in s.dying && orphan !in s.pending)
  }

  ghost predicate FreedOk(s: State) {
    NoDup(s.freed) && forall o | o in s.freed :: o in s.dying
  }

  /** Only objects that every closed set contains are deleted or wait for it. */
  ghost predicate Justified(h: Heap, s: State, orphan: int)
    requires |h.locks| == |h.owns|
  {
    forall x | Closed(h, s.dropped, x) :: Within(s, orphan, x)
  }

  ghost predicate Within(s: State, orphan: int, x: set<Obj>) {
    && s.dying <= x && (forall o | o in s.pending :: o in x)
    && (0 <= orphan < |s.locks| ==> orphan in x)
  }

  ghost predicate Inv(h: Heap, s: State, debt: int, orphan: int) {
    Shape(h, s) && Accounted(h, s, debt) && Queued(s, orphan) && FreedOk(s) && Justified(h, s, orphan)
  }

  const NONE := -1

  /** No deletion is under way. */
  ghost predicate Quiet(h: Heap, s: State) {
    && |s.done| == |h.owns|
    && forall i | i in s.dying :: i < |s.done| && s.done[i] == |h.owns[i]| && i in s.freed
  }

  /** Between two points of a run: what started and ended in between was deleted completely. */
  ghost predicate Step(h: Heap, s: State, t: State) {
    && s.dying <= t.dying && s.freed <= t.freed && t.dropped == s.dropped
    && |s.done| == |t.done| == |h.owns|
    && (forall i | 0 <= i < |s.done| && i in s.dying :: t.done[i] == s.done[i] && (i in t.freed ==> i in s.freed))
    && (forall i | 0 <= i < |s.done| && i in t.dying && i !in s.dying :: t.done[i] == |h.owns[i]| && i in t.freed)
  }

  lemma StepTrans(h: Heap, s: State, t: State, u: State)
    requires Step(h, s, t) && Step(h, t, u)
    ensures Step(h, s, u)
  {
  }

  lemma StepFacts(h: Heap, s: State, t: State, o: Obj)
    requires Step(h, s, t) && o in s.dying && o < |s.done|
    ensures o in t.dying && o < |t.done| && t.done[o] == s.done[o] && s.dying <= t.dying
  {
  }

  /** The destructor of `o` is about to release one more reference. */
  lemma StepOwe(h: Heap, b: State, s: State, o: Obj, k: nat)
    requires o in b.dying && o < |b.done| && Step(h, b.(done := b.done[o := k]), s)
    ensures Step(h, b.(done := b.done[o := k + 1]), s.(done := s.done[o := k + 1]))
  {
  }

  /** A whole deletion: the destructor runs from its first reference to its last, then the memory goes. */
  lemma StepDeleted(h: Heap, s: State, t: State, o: Obj)
    requires o < |h.owns| == |s.done| && o !in s.dying && o !in s.freed
    requires Step(h, s.(dying := s.dying + {o}, done := s.done[o := |h.owns[o]|]), t)
    ensures Step(h, s, t.(freed := t.freed + [o])) && o !in t.freed && o in t.dying
  {
  }

  lemma Sizes(h: Heap, s: State, debt: int, orphan: int)
    requires Inv(h, s, debt, orphan)
    ensures |s.locks| == |s.done| == |h.owns| && s.dying <= All(h)
    ensures forall o | 0 <= o < |s.locks| :: o in All(h)
  {
    forall o | 0 <= o < |s.locks| ensures o in All(h) { assert IsObj(h, o); }
  }

  lemma StepSame(h: Heap, s: State)
    requires |s.done| == |h.owns|
    ensures Step(h, s, s)
  {
  }

  lemma StepQuiet(h: Heap, s: State, t: State)
    requires Quiet(h, s) && Step(h, s, t) && t.dying <= All(h)
    ensures Quiet(h, t)
  {
  }

  /**
   Once the queue is empty and nothing is under way, the objects deleted are the least set that
   contains every object all of whose locks were given up by clients or by objects in the set.
   */
  lemma QuietIsLeast(h: Heap, s: State)
    requires Inv(h, s, NONE, NONE) && Quiet(h, s) && s.pending == []
    ensures LeastClosed(h, s.dropped, s.dying)
    ensures s.dying == Elems(s.freed) && NoDup(s.freed)
  {
    forall o | 0 <= o < |h.owns| && Abandoned(h, s.dropped, s.dying, o) ensures o in s.dying {
      ReleasedFrom(h.owns, s.done, s.dying, |h.owns|, o);
      assert s.locks[o] <= 0;
      LocksNatural(h, s, o);
    }
    forall y | Closed(h, s.dropped, y) ensures s.dying <= y {
      assert Within(s, NONE, y);
    }
  }

  /** Nothing is ever released that was not counted. */
  lemma LocksNatural(h: Heap, s: State, o: Obj)
    requires Shape(h, s) && Accounted(h, s, NONE) && o < |s.locks|
    ensures s.locks[o] >= 0
  {
    ReleasedFrom(h.owns, s.done, s.dying, |h.owns|, o);
    FromMonotone(h.owns, s.dying, All(h), |h.owns|, o);
  }

  // ---------- each change keeps the invariant ----------

  /** A destructor is about to release its next reference. */
  lemma Owe(h: Heap, s: State, i: Obj)
    requires Inv(h, s, NONE, NONE) && i in s.dying && i < |s.done| && s.done[i] < |h.owns[i]|
    ensures h.owns[i][s.done[i]] < |s.locks|
    ensures Inv(h, s.(done := s.done[i := s.done[i] + 1]), h.owns[i][s.done[i]], NONE)
  {
    var t := s.(done := s.done[i := s.done[i] + 1]);
    forall o | 0 <= o < |s.locks| { OneReleased(h.owns, s.done, i, |h.owns|, o); }
    assert Justified(h, t, NONE) by {
      forall x | Closed(h, t.dropped, x) ensures Within(t, NONE, x) { assert Within(s, NONE, x); }
    }
  }

  /** A client that owns a lock of `o` is about to release it. */
  lemma Drop(h: Heap, s: State, o: Obj)
    requires Inv(h, s, NONE, NONE) && o < |s.locks|
    requires h.locks[o] > Held(h, All(h), o) + Count(s.dropped, o)
    ensures Inv(h, s.(dropped := s.dropped + [o]), o, NONE)
  {
    var t := s.(dropped := s.dropped + [o]);
    assert Shape(h, t);
    assert Justified(h, t, NONE) by {
      forall x | Closed(h, t.dropped, x) ensures Within(t, NONE, x) {
        assert Closed(h, s.dropped, x) by {
          forall q | 0 <= q < |h.owns| && Abandoned(h, s.dropped, x, q) ensures q in x {
            assert Abandoned(h, t.dropped, x, q);
          }
        }
        assert Within(s, NONE, x);
      }
    }
  }

  lemma OwedLock(h: Heap, s: State, o: Obj)
    requires Shape(h, s) && Accounted(h, s, o) && o < |s.locks|
    ensures s.locks[o] > 0
  {
    ReleasedFrom(h.owns, s.done, s.dying, |h.owns|, o);
    FromMonotone(h.owns, s.dying, All(h), |h.owns|, o);
  }

  function Unlocked(s: State, o: Obj): State
    requires o < |s.locks|
  {
    s.(locks := s.locks[o := s.locks[o] - 1])
  }

  /** The lock is released; an object that loses its last one is in every closed set. */
  lemma Release(h: Heap, s: State, o: Obj)
    requires Inv(h, s, o, NONE) && o < |s.locks|
    ensures s.locks[o] > 0 && s.locks[o] - 1 == Unlocked(s, o).locks[o]
    ensures Inv(h, Unlocked(s, o), NONE, if s.locks[o] == 1 then o else NONE)
  {
    OwedLock(h, s, o);
    var t := Unlocked(s, o);
    var orphan := if s.locks[o] == 1 then o else NONE;
    assert Accounted(h, t, NONE);
    assert Justified(h, t, orphan) by {
      forall x | Closed(h, t.dropped, x) ensures Within(t, orphan, x) {
        assert Within(s, NONE, x);
        if orphan == o { LastReleased(h, t, o, x); }
      }
    }
  }

  lemma LastReleased(h: Heap, s: State, o: Obj, x: set<Obj>)
    requires Shape(h, s) && Accounted(h, s, NONE) && o < |s.locks| && s.locks[o] == 0
    requires Closed(h, s.dropped, x) && s.dying <= x
    ensures o in x
  {
    ReleasedFrom(h.owns, s.done, s.dying, |h.owns|, o);
    FromMonotone(h.owns, s.dying, x, |h.owns|, o);
    assert Abandoned(h, s.dropped, x, o);
  }

  lemma Enqueue(h: Heap, s: State, o: Obj)
    requires Inv(h, s, NONE, o) && o < |s.locks|
    ensures Inv(h, s.(pending := s.pending + [o]), NONE, NONE)
  {
    var t := s.(pending := s.pending + [o]);
    assert Justified(h, t, NONE) by {
      forall x | Closed(h, t.dropped, x) ensures Within(t, NONE, x) { assert Within(s, o, x); }
    }
  }

  /** The rest of a queue without repetitions has all its members but the first. */
  lemma FirstTaken(q: seq<Obj>)
    requires NoDup(q) && q != []
    ensures NoDup(q[1..]) && q[0] in q && q[0] !in q[1..] && forall o :: o in q <==> o == q[0] || o in q[1..]
  {
    var rest := q[1..];
    assert q == [q[0]] + rest;
    forall i | 0 <= i < |rest| ensures rest[i] == q[i + 1] && rest[i] != q[0] {}
    forall i, j | 0 <= i < j < |rest| ensures rest[i] != rest[j] {
      assert rest[i] == q[i + 1] && rest[j] == q[j + 1];
    }
  }

  lemma SameLocks(h: Heap, s: State, t: State)
    requires Shape(h, s) && Accounted(h, s, NONE) && t == s.(pending := t.pending)
    ensures Shape(h, t) && Accounted(h, t, NONE)
  {
  }

  lemma Dequeue(h: Heap, s: State)
    requires Inv(h, s, NONE, NONE) && s.pending != []
    ensures s.pending[0] < |s.locks|
    ensures Inv(h, s.(pending := s.pending[1..]), NONE, s.pending[0])
  {
    hide Accounted, NoDup;
    var t := s.(pending := s.pending[1..]);
    FirstTaken(s.pending);
    SameLocks(h, s, t);
    assert Justified(h, t, s.pending[0]) by {
      forall x | Closed(h, t.dropped, x) ensures Within(t, s.pending[0], x) { assert Within(s, NONE, x); }
    }
  }

  lemma Begin(h: Heap, s: State, o: Obj)
    requires Inv(h, s, NONE, o) && o < |s.locks|
    ensures s.done[o] == 0 && o in All(h) && o !in s.dying && o !in s.freed
    ensures Inv(h, s.(dying := s.dying + {o}), NONE, NONE)
  {
    var t := s.(dying := s.dying + {o});
    assert Justified(h, t, NONE) by {
      forall x | Closed(h, t.dropped, x) ensures Within(t, NONE, x) { assert Within(s, o, x); }
    }
  }

  lemma Free(h: Heap, s: State, o: Obj)
    requires Inv(h, s, NONE, NONE) && o in s.dying && o !in s.freed
    ensures Inv(h, s.(freed := s.freed + [o]), NONE, NONE)
  {
    var t := s.(freed := s.freed + [o]);
    assert Justified(h, t, NONE) by {
      forall x | Closed(h, t.dropped, x) ensures Within(t, NONE, x) { assert Within(s, NONE, x); }
    }
  }

  lemma Initial(h: Heap)
    requires WellFormed(h, [])
    ensures Inv(h, State(h.locks, [], [], [], seq(|h.owns|, _ => 0), {}), NONE, NONE)
    ensures Quiet(h, State(h.locks, [], [], [], seq(|h.owns|, _ => 0), {}))
  {
    var done := seq(|h.owns|, _ => 0);
    forall o | 0 <= o < |h.owns| ensures Released(h.owns, done, |h.owns|, o) == 0 {
      NothingReleased(h.owns, done, |h.owns|, o);
    }
  }

  class BlueClasses {
    const owns: seq<seq<Obj>>
    const delayable: set<Obj>
    const onMainThread: bool
    var locks: seq<int>
    var pending: seq<Obj>
    var freed: seq<Obj>
    var useDelayedDeletes: bool
    var maxTimeForPendingDeletes: real
    var maxPendingDeletes: nat
    ghost const heap: Heap
    ghost var dropped: seq<Obj>
    ghost var done: seq<nat>
    ghost var dying: set<Obj>

    ghost function St(): State
      reads this
    {
      State(locks, pending, freed, dropped, done, dying)
    }

    ghost predicate Valid(debt: int, orphan: int)
      reads this
    {
      heap.owns == owns && Inv(heap, St(), debt, orphan)
    }

    constructor (owns: seq<seq<Obj>>, locks: seq<int>, useDelayedDeletes: bool, delayable: set<Obj>, onMainThread: bool)
      requires WellFormed(Heap(owns, locks), [])
      ensures Valid(NONE, NONE) && Quiet(heap, St()) && heap == Heap(owns, locks) && dropped == []
    {
      this.owns := owns;
      this.locks := locks;
      this.useDelayedDeletes := useDelayedDeletes;
      this.delayable := delayable;
      this.onMainThread := onMainThread;
      pending, freed := [], [];
      maxTimeForPendingDeletes, maxPendingDeletes := 1.0, 10000;
      heap := Heap(owns, locks);
      dropped, done, dying := [], seq(|owns|, _ => 0), {};
      Initial(Heap(owns, locks));
    }

    /** Carries out a release that is already accounted for. */
    method Unlock(o: Obj)
      requires o < |locks| && Valid(o, NONE)
      modifies `locks, `pending, `freed, `done, `dying
      ensures Valid(NONE, NONE) && Step(heap, old(St()), St())
      ensures AllDeferred() ==> freed == old(freed) && old(pending) <= pending && dying == old(dying)
      decreases All(heap) - dying, 2
    {
      hide Inv, All;
      Sizes(heap, St(), o, NONE);
      Release(heap, St(), o);
      locks := locks[o := locks[o] - 1];
      if locks[o] == 0 {
        Destroy(o);
      }
    }

    method Destroy(o: Obj)
      requires o < |locks| && Valid(NONE, o)
      modifies `locks, `pending, `freed, `done, `dying
      ensures Valid(NONE, NONE) && Step(heap, old(St()), St())
      ensures if o in delayable && useDelayedDeletes && onMainThread
              then pending == old(pending) + [o] && freed == old(freed) && locks == old(locks)
              else o in freed && o !in old(freed)
      ensures AllDeferred() ==> freed == old(freed) && old(pending) <= pending && dying == old(dying)
      decreases All(heap) - dying, 1
    {
      hide Inv, All;
      Sizes(heap, St(), NONE, o);
      var added := false;
      if o in delayable {
        added := AddPendingDelete(o);
      }
      if !added {
        FinalDelete(o);
      }
    }

    method AddPendingDelete(o: Obj) returns (added: bool)
      requires o < |locks| && Valid(NONE, o)
      modifies `pending
      ensures added <==> useDelayedDeletes && onMainThread
      ensures pending == if added then old(pending) + [o] else old(pending)
      ensures Valid(NONE, if added then NONE else o)
    {
      hide Inv;
      if !useDelayedDeletes {
        return false;
      }
      if !onMainThread {
        return false;
      }
      Enqueue(heap, St(), o);
      pending := pending + [o];
      return true;
    }

    ghost predicate AllDeferred()
      reads this
    {
      useDelayedDeletes && onMainThread && All(heap) <= delayable
    }

    /** Runs the destructor, which releases every reference held, and frees the memory. */
    method FinalDelete(o: Obj)
      requires o < |locks| && Valid(NONE, o)
      modifies `locks, `pending, `freed, `done, `dying
      ensures Valid(NONE, NONE) && Step(heap, old(St()), St())
      ensures o in dying && o !in old(dying) && o in freed && o !in old(freed)
      ensures AllDeferred() ==> freed == old(freed) + [o] && old(pending) <= pending
      decreases All(heap) - dying, 0
    {
      hide Inv, Step;
      ghost var s := St();
      Sizes(heap, s, NONE, o);
      Begin(heap, s, o);
      dying := dying + {o};
      ghost var b := St();
      StepSame(heap, b);
      assert b.(done := b.done[o := 0]) == b;
      var k := 0;
      while k < |owns[o]|
        invariant k <= |owns[o]| && Valid(NONE, NONE) && o in dying && o < |done| && done[o] == k
        invariant Step(heap, b.(done := b.done[o := k]), St())
        invariant AllDeferred() ==> freed == s.freed && s.pending <= pending
      {
        Owe(heap, St(), o);
        Sizes(heap, St(), NONE, NONE);
        StepOwe(heap, b, St(), o, k);
        done := done[o := done[o] + 1];
        ghost var u := St();
        StepFacts(heap, b.(done := b.done[o := k + 1]), u, o);
        Unlock(owns[o][k]);
        StepFacts(heap, u, St(), o);
        StepTrans(heap, b.(done := b.done[o := k + 1]), u, St());
        k := k + 1;
      }
      Sizes(heap, St(), NONE, NONE);
      StepDeleted(heap, s, St(), o);
      Free(heap, St(), o);
      freed := freed + [o];
    }

    /** Deletes until the queue is empty: what is deleted then is the least closed set, each object once. */
    method ProcessAllPendingDeletes()
      requires Valid(NONE, NONE) && Quiet(heap, St())
      modifies `locks, `pending, `freed, `done, `dying
      ensures Valid(NONE, NONE) && Quiet(heap, St()) && pending == []
      ensures LeastClosed(heap, dropped, Elems(freed))
      ensures NoDup(freed)
      ensures AllDeferred() ==> old(freed + pending) <= freed
    {
      hide Inv, Step, LeastClosed, Closed, All;
      while pending != []
        invariant Valid(NONE, NONE) && Quiet(heap, St())
        invariant AllDeferred() ==> old(freed + pending) <= freed + pending
        decreases All(heap) - dying
      {
        DeleteFirst();
      }
      QuietIsLeast(heap, St());
    }

    /** The head of the queue is taken off and deleted. */
    method DeleteFirst()
      requires Valid(NONE, NONE) && Quiet(heap, St()) && pending != []
      modifies `locks, `pending, `freed, `done, `dying
      ensures Valid(NONE, NONE) && Quiet(heap, St())
      ensures All(heap) - dying < old(All(heap) - dying)
      ensures AllDeferred() ==> old(freed + pending) <= freed + pending
    {
      hide Inv, LeastClosed, Closed, All;
      ghost var s := St();
      Sizes(heap, s, NONE, NONE);
      Dequeue(heap, s);
      var o := pending[0];
      pending := pending[1..];
      ghost var t := St();
      FinalDelete(o);
      Sizes(heap, St(), NONE, NONE);
      StepQuiet(heap, t, St());
      assert s.pending == [o] + t.pending;
    }

    /** `clock(k)` is the timer's `k`-th reading, in seconds. */
    method ProcessPendingDeletes(clock: nat -> real)
      requires Valid(NONE, NONE) && Quiet(heap, St())
      modifies `locks, `pending, `freed, `done, `dying
      ensures Valid(NONE, NONE) && Quiet(heap, St())
      ensures pending == [] || |pending| < maxPendingDeletes
      ensures pending != [] ==> maxTimeForPendingDeletes > 0.0 && exists k ::
          clock(k) > maxTimeForPendingDeletes / 1000.0
      ensures AllDeferred() ==> old(freed + pending) <= freed + pending
    {
      hide Inv, Step, LeastClosed, Closed, All;
      if maxTimeForPendingDeletes <= 0.0 {
        ProcessAllPendingDeletes();
      }
      var maxTimeInSec := maxTimeForPendingDeletes / 1000.0;
      var k := 0;
      while pending != []
        invariant Valid(NONE, NONE) && Quiet(heap, St())
        invariant maxTimeForPendingDeletes <= 0.0 ==> pending == []
        invariant AllDeferred() ==> old(freed + pending) <= freed + pending
        decreases All(heap) - dying
      {
        DeleteFirst();
        if |pending| < maxPendingDeletes {
          k := k + 1;
          if clock(k - 1) > maxTimeInSec {
            break;
          }
        }
      }
    }

    /** A client gives up a lock it owns. */
    method DropLock(o: Obj)
      requires Valid(NONE, NONE) && Quiet(heap, St()) && WellFormed(heap, dropped + [o]) && o < |heap.owns|
      modifies `locks, `pending, `freed, `dropped, `done, `dying
      ensures Valid(NONE, NONE) && Quiet(heap, St()) && dropped == old(dropped) + [o]
    {
      hide Inv, LeastClosed, Closed, All;
      ghost var s := St();
      Sizes(heap, s, NONE, NONE);
      Drop(heap, s, o);
      dropped := dropped + [o];
      ghost var t := St();
      Unlock(o);
      Sizes(heap, St(), NONE, NONE);
      StepQuiet(heap, t, St());
    }
  }

  lemma FewerDrops(h: Heap, drops: seq<Obj>, k: nat)
    requires k <= |drops| && WellFormed(h, drops)
    ensures WellFormed(h, drops[..k])
  {
    forall o | 0 <= o < |h.locks| ensures h.locks[o] >= Held(h, All(h), o) + Count(drops[..k], o) {
      CountTaken(drops, k, o);
    }
  }

  datatype Settings = Settings(
    useDelayedDeletes: bool, delayable: set<Obj>, onMainThread: bool, maxTime: real, maxPending: nat)

  /**
   A whole run: clients give up locks one after the other, the queue is processed whenever
   `frame` says so, and is emptied at the end.
   */
  method Run(heap: Heap, drops: seq<Obj>, settings: Settings, frame: nat -> bool, clock: nat -> nat -> real)
    returns (freed: seq<Obj>)
    requires WellFormed(heap, drops) && forall o | o in drops :: o < |heap.owns|
    ensures LeastClosed(heap, drops, Elems(freed)) && NoDup(freed)
  {
    hide LeastClosed, Closed, Quiet, WellFormed, All, Inv, NoDup;
    FewerDrops(heap, drops, 0);
    assert drops[..0] == [];
    var classes := new BlueClasses(
      heap.owns, heap.locks, settings.useDelayedDeletes, settings.delayable, settings.onMainThread);
    classes.maxTimeForPendingDeletes := settings.maxTime;
    classes.maxPendingDeletes := settings.maxPending;
    for i := 0 to |drops|
      invariant fresh(classes) && classes.heap == heap && classes.Valid(NONE, NONE)
      invariant Quiet(classes.heap, classes.St()) && classes.dropped == drops[..i]
    {
      FewerDrops(heap, drops, i + 1);
      assert drops[..i + 1] == drops[..i] + [drops[i]] && drops[i] in drops;
      classes.DropLock(drops[i]);
      if frame(i) {
        classes.ProcessPendingDeletes(clock(i));
      }
    }
    classes.ProcessAllPendingDeletes();
    assert drops[..|drops|] == drops;
    return classes.freed;
  }

  /** Deferring deletions, in whatever way, frees exactly what deleting at once frees. */
  method DeferredAsImmediate(heap: Heap, drops: seq<Obj>, settings: Settings, frame: nat -> bool,
          clock: nat -> nat -> real)
    returns (deferred: seq<Obj>, immediate: seq<Obj>)
    requires WellFormed(heap, drops) && forall o | o in drops :: o < |heap.owns|
    ensures NoDup(deferred) && multiset(deferred) == multiset(immediate)
  {
    deferred := Run(heap, drops, settings, frame, clock);
    immediate := Run(heap, drops, settings.(useDelayedDeletes := false), frame, clock);
    LeastUnique(heap, drops, Elems(deferred), Elems(immediate));
    SameElements(deferred, immediate);
  }

  lemma {:induction false} OnceInMultiset(s: seq<Obj>, o: Obj)
    requires NoDup(s)
    ensures multiset(s)[o] == if o in s then 1 else 0
  {
    if s != [] {
      var n := |s| - 1;
      assert s == s[..n] + [s[n]];
      OnceInMultiset(s[..n], o);
    }
  }

  lemma SameElements(s: seq<Obj>, t: seq<Obj>)
    requires NoDup(s) && NoDup(t) && Elems(s) == Elems(t)
    ensures multiset(s) == multiset(t)
  {
    forall o: Obj ensures multiset(s)[o] == multiset(t)[o] {
      OnceInMultiset(s, o);
      OnceInMultiset(t, o);
      assert o in Elems(s) <==> o in Elems(t);
    }
  }
}

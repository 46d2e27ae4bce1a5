/**
 Lock counts of objects, and what it means for a container to account for the locks it holds.
 */
module Ledgers {

  type Obj = nat

  /** An object that is not there has been destroyed and has no locks. */
  function LocksOf(locks: map<Obj, int>, o: Obj): int {
    if o in locks then locks[o] else 0
  }

  function Count(s: seq<Obj>, o: Obj): nat { multiset(s)[o] }

  /** Slots are counted one by one. */
  lemma CountExactly(s: seq<Obj>, v: Obj, o: Obj)
    ensures Count([], o) == 0 && Count(s + [v], o) == Count(s, o) + if v == o then 1 else 0
  {
  }

  ghost predicate Alive(locks: map<Obj, int>) {
    forall o | o in locks :: locks[o] > 0
  }

  /** Every slot that holds an object has one of its locks. */
  ghost predicate Covers(locks: map<Obj, int>, items: seq<Obj>) {
    Alive(locks) && forall o :: LocksOf(locks, o) >= Count(items, o)
  }

  /** Locks changed exactly as the number of slots that hold each object. */
  ghost predicate Balanced(before: map<Obj, int>, was: seq<Obj>, after: map<Obj, int>, items: seq<Obj>) {
    forall o :: LocksOf(after, o) - LocksOf(before, o) == Count(items, o) - Count(was, o)
  }

  lemma BalancedTrans(l0: map<Obj, int>, s0: seq<Obj>, l1: map<Obj, int>, s1: seq<Obj>, l2: map<Obj, int>, s2: seq<Obj>)
    requires Balanced(l0, s0, l1, s1) && Balanced(l1, s1, l2, s2)
    ensures Balanced(l0, s0, l2, s2)
  {
  }

  lemma BalancedCovers(l0: map<Obj, int>, s0: seq<Obj>, l1: map<Obj, int>, s1: seq<Obj>)
    requires Covers(l0, s0) && Balanced(l0, s0, l1, s1) && Alive(l1)
    ensures Covers(l1, s1)
  {
    forall o ensures LocksOf(l1, o) >= Count(s1, o) {
      assert LocksOf(l0, o) >= Count(s0, o);
    }
  }

  lemma CoversAlive(locks: map<Obj, int>, items: seq<Obj>)
    requires Covers(locks, items)
    ensures Alive(locks)
  {
  }

  lemma ItemAlive(locks: map<Obj, int>, items: seq<Obj>, o: Obj)
    requires Covers(locks, items) && o in items
    ensures o in locks
  {
    assert Count(items, o) > 0;
  }

  /** A lock less; the last one destroys the object. */
  function Unlocked(locks: map<Obj, int>, o: Obj): map<Obj, int>
    requires o in locks
  {
    if locks[o] == 1 then locks - {o} else locks[o := locks[o] - 1]
  }

  class Ledger {
    var locks: map<Obj, int>

    method Lock(o: Obj)
      requires o in locks && Alive(locks)
      modifies this
      ensures Alive(locks) && forall q :: LocksOf(locks, q) == LocksOf(old(locks), q) + if q == o then 1 else 0
    {
      locks := locks[o := locks[o] + 1];
    }

    method Unlock(o: Obj)
      requires o in locks && Alive(locks)
      modifies this
      ensures locks == Unlocked(old(locks), o)
      ensures Alive(locks) && forall q :: LocksOf(locks, q) == LocksOf(old(locks), q) - if q == o then 1 else 0
    {
      if locks[o] == 1 {
        locks := locks - {o};
      } else {
        locks := locks[o := locks[o] - 1];
      }
    }
  }
}

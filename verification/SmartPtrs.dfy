/**
 Smart pointers: a pointer that is not null holds exactly one lock of its object. A new object is
 locked before the old one is released, so assigning a pointer to itself never destroys anything.
 */
module SmartPtrs {

  import opened Basics
  import opened Ledgers

  /** The slot of a pointer, as a container of at most one item. */
  function Slot(p: Option<Obj>): seq<Obj> {
    if p.Some? then [p.value] else []
  }

  /** A lock is moved to where the pointer now points. */
  lemma Repointed(l0: map<Obj, int>, l1: map<Obj, int>, l2: map<Obj, int>, was: Option<Obj>, p: Option<Obj>)
    requires forall o: Obj :: LocksOf(l1, o) == LocksOf(l0, o) + if p == Some(o) then 1 else 0
    requires forall o: Obj :: LocksOf(l2, o) == LocksOf(l1, o) - if was == Some(o) then 1 else 0
    ensures Balanced(l0, Slot(was), l2, Slot(p))
  {
    forall o: Obj ensures Count(Slot(was), o) == (if was == Some(o) then 1 else 0)
        && Count(Slot(p), o) == (if p == Some(o) then 1 else 0) {
    }
  }

  lemma PointeeAlive(locks: map<Obj, int>, p: Option<Obj>)
    requires Covers(locks, Slot(p))
    ensures Alive(locks) && (p.Some? ==> p.value in locks)
  {
    if p.Some? { ItemAlive(locks, Slot(p), p.value); }
  }

  class BluePtr {
    const ledger: Ledger
    var p: Option<Obj>

    ghost predicate Valid()
      reads this, ledger
    {
      Covers(ledger.locks, Slot(p))
    }

    constructor (ledger: Ledger, lp: Option<Obj>)
      requires Alive(ledger.locks) && (lp.Some? ==> lp.value in ledger.locks)
      modifies ledger
      ensures Valid() && p == lp && this.ledger == ledger
      ensures Balanced(old(ledger.locks), [], ledger.locks, Slot(p))
    {
      this.ledger := ledger;
      p := lp;
      new;
      ghost var before := ledger.locks;
      if lp.Some? {
        ledger.Lock(lp.value);
      }
      Repointed(before, ledger.locks, ledger.locks, None, lp);
      assert Slot(None) == [];
      Nothing(before);
      BalancedCovers(before, [], ledger.locks, Slot(p));
    }

    method Assign(lp: Option<Obj>)
      requires Valid() && (lp.Some? ==> lp.value in ledger.locks)
      modifies this, ledger
      ensures Valid() && p == lp && (lp.Some? ==> lp.value in ledger.locks)
      ensures Balanced(old(ledger.locks), Slot(old(p)), ledger.locks, Slot(p))
    {
      hide Covers, Balanced;
      ghost var before := ledger.locks;
      PointeeAlive(before, p);
      if lp.Some? {
        ledger.Lock(lp.value);
      }
      ghost var mid := ledger.locks;
      ReleaseOld(before, lp);
      p := lp;
      Repointed(before, mid, ledger.locks, old(p), lp);
      BalancedCovers(before, Slot(old(p)), ledger.locks, Slot(p));
      PointeeAlive(ledger.locks, p);
    }

    method ReleaseOld(ghost before: map<Obj, int>, lp: Option<Obj>)
      requires Alive(ledger.locks) && (p.Some? ==> p.value in before && before[p.value] > 0)
      requires forall o: Obj :: LocksOf(ledger.locks, o) == LocksOf(before, o) + if lp == Some(o) then 1 else 0
      modifies this, ledger
      ensures p == None && Alive(ledger.locks)
      ensures forall o: Obj ::
          LocksOf(ledger.locks, o) == LocksOf(old(ledger.locks), o) - if old(p) == Some(o) then 1 else 0
    {
      var tmp := p;
      if p.Some? {
        assert LocksOf(ledger.locks, p.value) > 0;
        p := None;
        ledger.Unlock(tmp.value);
      }
    }

    method CopyAssign(other: BluePtr)
      requires Valid() && other.Valid() && other.ledger == ledger
      modifies this, ledger
      ensures Valid() && p == old(other.p)
      ensures Balanced(old(ledger.locks), Slot(old(p)), ledger.locks, Slot(p))
    {
      PointeeAlive(ledger.locks, other.p);
      Assign(other.p);
    }

    /** A query for an interface the object does not have gives null. */
    method CastAssign(obj: Option<Obj>, supported: bool)
      requires Valid() && (obj.Some? ==> obj.value in ledger.locks)
      modifies this, ledger
      ensures Valid() && p == if supported then obj else None
      ensures Balanced(old(ledger.locks), Slot(old(p)), ledger.locks, Slot(p))
    {
      hide Covers, Balanced;
      ghost var before := ledger.locks;
      PointeeAlive(before, p);
      var tmp := p;
      if obj.Some? && supported {
        ledger.Lock(obj.value);
        p := obj;
      } else {
        p := None;
      }
      ghost var mid := ledger.locks;
      if tmp.Some? {
        assert LocksOf(mid, tmp.value) > 0;
        ledger.Unlock(tmp.value);
      }
      Repointed(before, mid, ledger.locks, tmp, p);
      BalancedCovers(before, Slot(tmp), ledger.locks, Slot(p));
    }

    /** Takes over what another pointer holds; what this one held is not released. */
    method MoveAssign(other: BluePtr)
      requires Valid() && other.Valid() && other.ledger == ledger
      modifies this, other
      ensures p == old(other.p) && ledger.locks == old(ledger.locks)
      ensures other != this ==> other.p == if old(p) == old(other.p) then old(other.p) else None
    {
      if p == other.p {
        return;
      }
      p := other.p;
      other.p := None;
    }

    method Unlock()
      requires Valid()
      modifies this, ledger
      ensures Valid() && p == None
      ensures Balanced(old(ledger.locks), Slot(old(p)), ledger.locks, Slot(p))
    {
      Assign(None);
    }

    /** Takes over a lock that the caller holds. */
    method Attach(p2: Option<Obj>)
      requires Valid()
      requires Covers(ledger.locks, Slot(p) + Slot(p2))
      modifies this, ledger
      ensures Valid() && p == p2
      ensures Balanced(old(ledger.locks), Slot(old(p)), ledger.locks, [])
    {
      ghost var before := ledger.locks;
      Unlock();
      assert Slot(None) == [];
      forall o: Obj ensures LocksOf(ledger.locks, o) >= Count(Slot(p2), o) {
        assert LocksOf(before, o) >= Count(Slot(old(p)) + Slot(p2), o);
      }
      p := p2;
    }

    lemma Nothing(locks: map<Obj, int>)
      requires Alive(locks)
      ensures Covers(locks, [])
    {
    }
  }

  /** Exactly when a move between two pointers keeps the locks right: when nothing else was held. */
  lemma MoveBalance(locks: map<Obj, int>, p: Option<Obj>, other: Option<Obj>)
    ensures var left := if p == other then other else None;
            Balanced(locks, Slot(p) + Slot(other), locks, Slot(other) + Slot(left)) <==> p.None? || p == other
  {
    var left := if p == other then other else None;
    if p.Some? && p != other {
      var o := p.value;
      assert Count(Slot(p) + Slot(other), o) == 1;
      assert Count(Slot(other) + Slot(left), o) == 0;
    }
  }
}

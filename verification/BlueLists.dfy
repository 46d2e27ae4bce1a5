/**
 The list of Blue objects: in-place operations, the events sent to an observer, and the locks
 that its slots hold. Observers and destructors do not change the list.
 */
module BlueLists {

  import opened Basics
  import opened Ledgers

  datatype Event =
    | Inserted(key: int, value: Obj)
    | Removed(key: int, value: Obj)
    | Swapped(key1: int, key2: int)
    | Moved(from: int, to: int)
    | UnloadStart

  /** `Thrown` is the exception of a checked access out of range. */
  datatype Outcome = Done | Rejected | Thrown

  // ---------- what operations mean ----------

  function InsertedAt(s: seq<Obj>, k: int, o: Obj): seq<Obj>
    requires 0 <= k <= |s|
  {
    s[..k] + [o] + s[k..]
  }

  function RemovedAt(s: seq<Obj>, k: int): seq<Obj>
    requires 0 <= k < |s|
  {
    s[..k] + s[k + 1..]
  }

  /** Moving is removing and inserting. */
  function MovedTo(s: seq<Obj>, from: int, to: int): seq<Obj>
    requires 0 <= from < |s| && 0 <= to < |s|
  {
    InsertedAt(RemovedAt(s, from), to, s[from])
  }

  /** What an observer does to its mirror of the list; a key past the end means the end. */
  function Mirror(s: seq<Obj>, e: Event): seq<Obj> {
    match e
    case Inserted(k, o) => if k < 0 then s else InsertedAt(s, if k > |s| then |s| else k, o)
    case Removed(k, _) => if 0 <= k < |s| then RemovedAt(s, k) else s
    case Swapped(a, b) => if 0 <= a < |s| && 0 <= b < |s| then s[a := s[b]][b := s[a]] else s
    case Moved(f, t) => if 0 <= f < |s| && 0 <= t < |s| then MovedTo(s, f, t) else s
    case UnloadStart => []
  }

  function Replay(s: seq<Obj>, es: seq<Event>): seq<Obj> {
    if es == [] then s else Mirror(Replay(s, es[..|es| - 1]), es[|es| - 1])
  }

  lemma {:induction false} ReplayMore(s: seq<Obj>, a: seq<Event>, b: seq<Event>)
    ensures Replay(s, a + b) == Replay(Replay(s, a), b)
  {
    if b == [] {
      assert a + b == a;
    } else {
      assert (a + b)[..|a + b| - 1] == a + b[..|b| - 1];
      ReplayMore(s, a, b[..|b| - 1]);
    }
  }

  lemma OneEvent(s: seq<Obj>, e: Event, es: seq<Event>)
    requires es == [e]
    ensures Replay(s, es) == Mirror(s, e)
  {
    assert es[..0] == [];
    assert Replay(s, []) == s;
  }

  lemma CountInserted(s: seq<Obj>, k: int, o: Obj, q: Obj)
    requires 0 <= k <= |s|
    ensures Count(InsertedAt(s, k, o), q) == Count(s, q) + if q == o then 1 else 0
  {
    assert s == s[..k] + s[k..];
  }

  lemma CountRemoved(s: seq<Obj>, k: int, q: Obj)
    requires 0 <= k < |s|
    ensures Count(RemovedAt(s, k), q) == Count(s, q) - if q == s[k] then 1 else 0
  {
    assert s == s[..k] + [s[k]] + s[k + 1..];
  }

  lemma MovedIs(s: seq<Obj>, from: int, to: int)
    requires 0 <= from < |s| && 0 <= to < |s|
    ensures var rest := s[..from] + s[from + 1..]; MovedTo(s, from, to) == rest[..to] + [s[from]] + rest[to..]
  {
  }

  lemma RemovedIs(s: seq<Obj>, k: int)
    requires 0 <= k < |s|
    ensures RemovedAt(s, k) == s[..k] + s[k + 1..]
  {
  }

  lemma CountMoved(s: seq<Obj>, from: int, to: int, q: Obj)
    requires 0 <= from < |s| && 0 <= to < |s|
    ensures Count(MovedTo(s, from, to), q) == Count(s, q)
  {
    CountRemoved(s, from, q);
    CountInserted(RemovedAt(s, from), to, s[from], q);
  }

  // ---------- the list ----------

  class BlueList {
    const ledger: Ledger
    const accepted: set<Obj>
    const assignable: bool
    var notify: bool
    var items: seq<Obj>
    var events: seq<Event>

    ghost predicate Valid()
      reads this, ledger
    {
      Covers(ledger.locks, items)
    }

    /** The events sent since `seen` turn a mirror of `was` into a mirror of the list. */
    ghost predicate Follows(was: seq<Obj>, seen: seq<Event>)
      reads this
    {
      seen <= events && (notify ==> Replay(was, events[|seen|..]) == items)
    }

    constructor (ledger: Ledger, accepted: set<Obj>, assignable: bool, notify: bool)
      requires Alive(ledger.locks)
      ensures Valid() && items == [] && events == []
      ensures this.ledger == ledger && this.accepted == accepted
    {
      this.ledger := ledger;
      this.accepted := accepted;
      this.assignable := assignable;
      this.notify := notify;
      items, events := [], [];
    }

    function RangeCheck(key: int, size: nat, insert: bool): bool {
      key >= -1 && if insert then key <= size else key < size
    }

    method Send(e: Event)
      modifies `events
      ensures events == if notify then old(events) + [e] else old(events)
    {
      if notify {
        events := events + [e];
      }
    }

    method Insert(key: int, val: Option<Obj>) returns (ok: bool)
      requires Valid() && (val.Some? ==> val.value in ledger.locks)
      modifies this, ledger
      ensures Valid() && notify == old(notify)
      ensures ok <==> val.Some? && -1 <= key <= |old(items)| && val.value in accepted
      ensures !ok ==> items == old(items)
      ensures var k := if key == -1 then |old(items)| else key;
              && (ok ==> items == old(items)[..k] + [val.value] + old(items)[k..])
              && events == if ok && notify then old(events) + [Inserted(k, val.value)] else old(events)
      ensures Balanced(old(ledger.locks), old(items), ledger.locks, items)
      ensures Follows(old(items), old(events))
    {
      hide Covers, Balanced;
      if val.None? {
        NothingChanged();
        return false;
      }
      if !RangeCheck(key, |items|, true) || val.value !in accepted {
        NothingChanged();
        return false;
      }
      var tmp := val.value;
      CoversAlive();
      ledger.Lock(tmp);
      var rkey := if key >= 0 then key else |items|;
      if key == -1 {
        items := items + [tmp];
      } else {
        items := items[..key] + [tmp] + items[key..];
      }
      assert items == InsertedAt(old(items), rkey, tmp);
      SlotAdded(old(ledger.locks), old(items), ledger.locks, rkey, tmp);
      Send(Inserted(rkey, tmp));
      Sent(old(items), old(events), Inserted(rkey, tmp));
      return true;
    }

    /** Sends the key after the last slot's: one past the one that was filled. */
    method Append(val: Option<Obj>) returns (ok: bool)
      requires Valid() && (val.Some? ==> val.value in ledger.locks)
      modifies this, ledger
      ensures Valid() && notify == old(notify)
      ensures ok <==> val.Some? && val.value in accepted
      ensures items == if ok then old(items) + [val.value] else old(items)
      ensures events == if ok && notify then old(events) + [Inserted(|items|, val.value)] else old(events)
      ensures Balanced(old(ledger.locks), old(items), ledger.locks, items)
      ensures Follows(old(items), old(events))
    {
      hide Covers, Balanced;
      if val.None? {
        NothingChanged();
        return false;
      }
      if val.value !in accepted {
        NothingChanged();
        return false;
      }
      var tmp := val.value;
      CoversAlive();
      ledger.Lock(tmp);
      items := items + [tmp];
      assert items == InsertedAt(old(items), |old(items)|, tmp);
      SlotAdded(old(ledger.locks), old(items), ledger.locks, |old(items)|, tmp);
      Send(Inserted(|items|, tmp));
      Sent(old(items), old(events), Inserted(|items|, tmp));
      return true;
    }

    lemma NothingChanged()
      requires Valid()
      ensures Balanced(ledger.locks, items, ledger.locks, items) && Follows(items, events)
    {
    }

    /** One event, or none without an observer, and the change it stands for. */
    lemma Sent(was: seq<Obj>, seen: seq<Event>, e: Event)
      requires events == if notify then seen + [e] else seen
      requires items == Mirror(was, e)
      ensures Follows(was, seen)
    {
      if notify { OneEvent(was, e, events[|seen|..]); }
    }

    lemma FollowsItself()
      ensures Follows(items, events)
    {
    }

    lemma FollowsTrans(was: seq<Obj>, seen: seq<Event>, t: seq<Obj>, mid: seq<Event>)
      requires seen <= mid && (notify ==> Replay(was, mid[|seen|..]) == t) && Follows(t, mid)
      ensures Follows(was, seen)
    {
      assert events[|seen|..] == mid[|seen|..] + events[|mid|..];
      ReplayMore(was, mid[|seen|..], events[|mid|..]);
    }

    lemma CoversAlive()
      requires Valid()
      ensures Alive(ledger.locks) && forall o | o in items :: o in ledger.locks
    {
      forall o | o in items ensures o in ledger.locks { ItemAlive(ledger.locks, items, o); }
    }

    /** -1 removes everything. */
    method Remove(key: int) returns (ok: bool)
      requires Valid()
      modifies this, ledger
      ensures Valid() && notify == old(notify)
      ensures ok <==> -1 <= key < |old(items)|
      ensures items == if !ok then old(items) else if key == -1 then [] else old(items)[..key] + old(items)[key + 1..]
      ensures events == if !ok || !notify || old(items) == [] then old(events)
                        else old(events) + [if key == -1 then UnloadStart else Removed(key, old(items)[key])]
      ensures Balanced(old(ledger.locks), old(items), ledger.locks, items)
      ensures Follows(old(items), old(events))
    {
      hide Covers, Balanced;
      NothingChanged();
      if key == -1 {
        if |items| == 0 {
          return true;
        }
        Send(UnloadStart);
        Unload();
        Sent(old(items), old(events), UnloadStart);
        return true;
      }
      if !RangeCheck(key, |items|, false) {
        return false;
      }
      var tmp := items[key];
      CoversAlive();
      items := items[..key] + items[key + 1..];
      Send(Removed(key, tmp));
      ledger.Unlock(tmp);
      SlotRemoved(old(ledger.locks), old(items), ledger.locks, key);
      Sent(old(items), old(events), Removed(key, tmp));
      return true;
    }

    /** Releases the items from the back. */
    method Unload()
      requires Valid()
      modifies `items, ledger
      ensures Valid() && items == []
      ensures Balanced(old(ledger.locks), old(items), ledger.locks, items)
    {
      hide Covers, Balanced;
      NothingChanged();
      while |items| > 0
        invariant Valid() && Balanced(old(ledger.locks), old(items), ledger.locks, items)
      {
        ghost var was, locks := items, ledger.locks;
        CoversAlive();
        var n := |items| - 1;
        var tmp := items[n];
        items := items[..n];
        assert items == RemovedAt(was, n);
        ledger.Unlock(tmp);
        SlotRemoved(locks, was, ledger.locks, n);
        BalancedTrans(old(ledger.locks), old(items), locks, was, ledger.locks, items);
      }
    }

    /** `Done` comes with the item; -1 passes the range check. */
    method GetAt(key: int) returns (r: Outcome, value: Option<Obj>)
      ensures r == if key == -1 then Thrown else if 0 <= key < |items| then Done else Rejected
      ensures value == if r == Done then Some(items[key]) else None
    {
      if !RangeCheck(key, |items|, false) {
        return Rejected, None;
      }
      if key < 0 {
        return Thrown, None;
      }
      return Done, Some(items[key]);
    }

    /**
     The first place of a value at or after `keyFrom`, or -1. From -1, which passes the range check,
     the search would begin in front of the first item; that is undefined, and answered with nothing.
     */
    method FindKey(value: Option<Obj>, keyFrom: int) returns (key: Option<int>)
      ensures key.None? <==> keyFrom == -1 && value.Some? && value.value in accepted
      ensures key.Some? && key.value != -1 ==>
                && 0 <= keyFrom <= key.value < |items| && value == Some(items[key.value]) && value.value in accepted
                && forall i | keyFrom <= i < key.value :: items[i] != value.value
      ensures key == Some(-1) && keyFrom >= 0 ==>
                value.None? || value.value !in accepted || forall i | keyFrom <= i < |items| :: items[i] != value.value
    {
      if value.None? {
        return Some(-1);
      }
      if keyFrom != 0 && !RangeCheck(keyFrom, |items|, false) {
        return Some(-1);
      }
      if value.value !in accepted {
        return Some(-1);
      }
      if keyFrom == -1 {
        return None;
      }
      var i: nat := keyFrom;
      while i < |items|
        invariant keyFrom <= i <= |items|
        invariant forall j | keyFrom <= j < i :: items[j] != value.value
      {
        if items[i] == value.value {
          return Some(i);
        }
        i := i + 1;
      }
      return Some(-1);
    }

    /** -1 passes the range check but not the access, which leaves everything as it was. */
    method Swap(key1: int, key2: int) returns (r: Outcome)
      requires Valid()
      modifies this
      ensures Valid() && notify == old(notify)
      ensures r == if !(-1 <= key1 < |old(items)| && -1 <= key2 < |old(items)|) then Rejected
                   else if key1 == -1 || key2 == -1 then Thrown else Done
      ensures items == if r == Done then old(items)[key1 := old(items)[key2]][key2 := old(items)[key1]] else old(items)
      ensures events == if r == Done && notify then old(events) + [Swapped(key1, key2)] else old(events)
      ensures Balanced(old(ledger.locks), old(items), ledger.locks, items)
      ensures Follows(old(items), old(events))
    {
      hide Covers, Balanced;
      NothingChanged();
      if !RangeCheck(key1, |items|, false) {
        return Rejected;
      }
      if !RangeCheck(key2, |items|, false) {
        return Rejected;
      }
      if key1 < 0 || key2 < 0 {
        return Thrown;
      }
      var tmp := items[key1];
      items := items[key1 := items[key2]];
      items := items[key2 := tmp];
      SwappedSame(old(items), key1, key2);
      SlotsPermuted(old(items));
      Send(Swapped(key1, key2));
      Sent(old(items), old(events), Swapped(key1, key2));
      return Done;
    }

    lemma SlotsPermuted(was: seq<Obj>)
      requires Covers(ledger.locks, was) && multiset(items) == multiset(was)
      ensures Valid() && Balanced(ledger.locks, was, ledger.locks, items)
    {
    }

    /**
     Shifts the items between two places. A move to -1 passes the range check and throws half way,
     with the moved item lost and the first one doubled.
     */
    method Move(from: int, to: int) returns (r: Outcome)
      requires Valid()
      modifies this
      ensures notify == old(notify)
      ensures r == if !(-1 <= from < |old(items)| && -1 <= to < |old(items)|) then Rejected
                   else if from == -1 || to == -1 then Thrown else Done
      ensures r == Done ==> var rest := old(items)[..from] + old(items)[from + 1..];
                            items == rest[..to] + [old(items)[from]] + rest[to..]
      ensures events == if r == Done && notify then old(events) + [Moved(from, to)] else old(events)
      ensures items == match r case Done => MovedTo(old(items), from, to)
                               case Rejected => old(items)
                               case Thrown => if from == -1 then old(items) else Doubled(old(items), from)
      ensures r == Done || from == -1 || r == Rejected ==>
                Valid() && Balanced(old(ledger.locks), old(items), ledger.locks, items)
                    && Follows(old(items), old(events))
    {
      hide Covers, Balanced, MovedTo, Doubled, Replay, InsertedAt, RemovedAt;
      NothingChanged();
      if !RangeCheck(from, |items|, false) {
        return Rejected;
      }
      if !RangeCheck(to, |items|, false) {
        return Rejected;
      }
      if from < 0 {
        return Thrown;
      }
      ghost var was := items;
      var thrown := Shift(from, to);
      if thrown {
        return Thrown;
      }
      MovedIs(was, from, to);
      MovedSame(was, from, to);
      SlotsPermuted(was);
      Send(Moved(from, to));
      Sent(was, old(events), Moved(from, to));
      return Done;
    }

    /** Moves the items between and puts the one moved in its place. */
    method Shift(from: int, to: int) returns (thrown: bool)
      requires 0 <= from < |items| && -1 <= to < |items|
      modifies `items
      ensures thrown <==> to == -1
      ensures items == if thrown then Doubled(old(items), from) else MovedTo(old(items), from, to)
    {
      hide MovedTo, Doubled;
      var tmp := items[from];
      thrown := false;
      if from < to {
        ShiftDown(from, to);
      } else {
        thrown := ShiftUp(from, to);
        if thrown {
          return;
        }
      }
      items := items[to := tmp];
      MovedParts(old(items), from, to);
    }

    method ShiftDown(from: int, to: int)
      requires 0 <= from < to < |items|
      modifies `items
      ensures |items| == |old(items)|
      ensures forall x ::
                items[to := x] == old(items[..from]) + old(items[from + 1..to + 1]) + [x] + old(items[to + 1..])
    {
      ghost var was := items;
      var i := from;
      while i < to
        invariant from <= i <= to && |items| == |was|
        invariant DownTo(was, items, from, i)
      {
        items := items[i := items[i + 1]];
        i := i + 1;
      }
      forall x ensures items[to := x] == was[..from] + was[from + 1..to + 1] + [x] + was[to + 1..] {
        ShiftedDown(was, items, from, to, x);
      }
    }

    /** Throws when it reaches below the first slot. */
    method ShiftUp(from: int, to: int) returns (thrown: bool)
      requires -1 <= to <= from < |items| && from >= 0
      modifies `items
      ensures thrown <==> to == -1
      ensures |items| == |old(items)|
      ensures thrown ==> items == Doubled(old(items), from)
      ensures !thrown ==> forall x ::
                items[to := x] == old(items[..to]) + [x] + old(items[to..from]) + old(items[from + 1..])
    {
      ghost var was := items;
      var i := from;
      while i > to
        invariant 0 <= i <= from && to <= i && |items| == |was|
        invariant UpTo(was, items, i, from)
      {
        if i - 1 < 0 {
          ShiftedUp(was, items, from);
          return true;
        }
        items := items[i := items[i - 1]];
        i := i - 1;
      }
      forall x ensures items[to := x] == was[..to] + [x] + was[to..from] + was[from + 1..] {
        ShiftedTo(was, items, from, to, x);
      }
      return false;
    }
  }

  /** What is left when a move runs off the front. */
  function Doubled(s: seq<Obj>, from: int): seq<Obj>
    requires 0 <= from < |s|
  {
    s[..1] + s[..from] + s[from + 1..]
  }

  // ---------- what the shifting loops leave ----------

  /** The slots from `from` up to `i` hold what was behind them. */
  ghost predicate DownTo(was: seq<Obj>, s: seq<Obj>, from: int, i: int)
    requires |s| == |was| && 0 <= from <= i < |was|
  {
    && (forall k | from <= k < i :: s[k] == was[k + 1])
    && (forall k | 0 <= k < from :: s[k] == was[k])
    && (forall k | i <= k < |was| :: s[k] == was[k])
  }

  /** The slots behind `i` up to `from` hold what was before them. */
  ghost predicate UpTo(was: seq<Obj>, s: seq<Obj>, i: int, from: int)
    requires |s| == |was| && 0 <= i <= from < |was|
  {
    && (forall k | i < k <= from :: s[k] == was[k - 1])
    && (forall k | 0 <= k <= i :: s[k] == was[k])
    && (forall k | from < k < |was| :: s[k] == was[k])
  }

  lemma ShiftedDown(was: seq<Obj>, s: seq<Obj>, from: int, to: int, x: Obj)
    requires 0 <= from < to < |was| && |s| == |was|
    requires DownTo(was, s, from, to)
    ensures s[to := x] == was[..from] + was[from + 1..to + 1] + [x] + was[to + 1..]
  {
    assert s[..from] == was[..from] && s[from..to] == was[from + 1..to + 1] && s[to + 1..] == was[to + 1..];
    assert s[to := x] == s[..from] + s[from..to] + [x] + s[to + 1..];
  }

  lemma ShiftedTo(was: seq<Obj>, s: seq<Obj>, from: int, to: int, x: Obj)
    requires 0 <= to <= from < |was| && |s| == |was|
    requires UpTo(was, s, to, from)
    ensures s[to := x] == was[..to] + [x] + was[to..from] + was[from + 1..]
  {
    assert s[..to] == was[..to] && s[to + 1..from + 1] == was[to..from] && s[from + 1..] == was[from + 1..];
    assert s[to := x] == s[..to] + [x] + s[to + 1..from + 1] + s[from + 1..];
  }

  lemma ShiftedUp(was: seq<Obj>, s: seq<Obj>, from: int)
    requires 0 <= from < |was| && |s| == |was|
    requires UpTo(was, s, 0, from)
    ensures s == Doubled(was, from)
  {
    assert s[..1] == was[..1] && s[1..from + 1] == was[..from] && s[from + 1..] == was[from + 1..];
    assert s == s[..1] + s[1..from + 1] + s[from + 1..];
  }

  lemma MovedParts(s: seq<Obj>, from: int, to: int)
    requires 0 <= from < |s| && 0 <= to < |s|
    ensures MovedTo(s, from, to) ==
            if from < to then s[..from] + s[from + 1..to + 1] + [s[from]] + s[to + 1..]
            else s[..to] + [s[from]] + s[to..from] + s[from + 1..]
  {
  }

  lemma MovedSame(s: seq<Obj>, from: int, to: int)
    requires 0 <= from < |s| && 0 <= to < |s|
    ensures multiset(MovedTo(s, from, to)) == multiset(s)
  {
    forall q: Obj ensures multiset(MovedTo(s, from, to))[q] == multiset(s)[q] { CountMoved(s, from, to, q); }
  }

  lemma SwappedSame(s: seq<Obj>, a: int, b: int)
    requires 0 <= a < |s| && 0 <= b < |s|
    ensures multiset(s[a := s[b]][b := s[a]]) == multiset(s)
  {
  }

  /** A move that runs off the front keeps the locks right only when it moves a copy of the first item. */
  lemma DoubledBalance(locks: map<Obj, int>, s: seq<Obj>, from: int)
    requires 0 <= from < |s|
    ensures Balanced(locks, s, locks, Doubled(s, from)) <==> s[from] == s[0]
  {
    var t := Doubled(s, from);
    forall q: Obj ensures Count(t, q) == Count(s, q) + (if q == s[0] then 1 else 0) - (if q == s[from] then 1 else 0) {
      assert t == [s[0]] + RemovedAt(s, from);
      CountRemoved(s, from, q);
    }
    if Balanced(locks, s, locks, t) { assert Count(t, s[0]) == Count(s, s[0]); }
  }

  lemma SlotAdded(before: map<Obj, int>, was: seq<Obj>, after: map<Obj, int>, k: int, o: Obj)
    requires Covers(before, was) && Alive(after) && 0 <= k <= |was|
    requires forall q :: LocksOf(after, q) == LocksOf(before, q) + if q == o then 1 else 0
    ensures Balanced(before, was, after, InsertedAt(was, k, o)) && Covers(after, InsertedAt(was, k, o))
  {
    forall q ensures LocksOf(after, q) - LocksOf(before, q) == Count(InsertedAt(was, k, o), q) - Count(was, q) {
      CountInserted(was, k, o, q);
    }
    BalancedCovers(before, was, after, InsertedAt(was, k, o));
  }

  lemma SlotRemoved(before: map<Obj, int>, was: seq<Obj>, after: map<Obj, int>, k: int)
    requires Covers(before, was) && Alive(after) && 0 <= k < |was|
    requires forall q :: LocksOf(after, q) == LocksOf(before, q) - if q == was[k] then 1 else 0
    ensures Balanced(before, was, after, RemovedAt(was, k)) && Covers(after, RemovedAt(was, k))
  {
    forall q ensures LocksOf(after, q) - LocksOf(before, q) == Count(RemovedAt(was, k), q) - Count(was, q) {
      CountRemoved(was, k, q);
    }
    BalancedCovers(before, was, after, RemovedAt(was, k));
  }

  // ---------- operations built on the list ----------

  /** Removes one occurrence quickly: the last item takes its place. */
  method Fremove(list: BlueList, value: Obj) returns (removed: bool, ghost key: int)
    requires list.Valid()
    modifies list, list.ledger
    ensures list.Valid() && list.notify == old(list.notify)
    ensures removed <==> value in list.accepted && value in old(list.items)
    ensures !removed ==> list.items == old(list.items)
    ensures removed ==> 0 <= key < |old(list.items)| && old(list.items)[key] == value
                        && list.items == old(list.items)[key := Last(old(list.items))][..|old(list.items)| - 1]
    ensures removed ==> multiset(list.items) == multiset(old(list.items)) - multiset{value}
    ensures Balanced(old(list.ledger.locks), old(list.items), list.ledger.locks, list.items)
    ensures list.Follows(old(list.items), old(list.events))
  {
    hide Covers, Balanced, Last, InsertedAt, RemovedAt;
    list.NothingChanged();
    var found := list.FindKey(Some(value), 0);
    key := found.value;
    if found.value == -1 {
      return false, key;
    }
    ghost var s: seq<Obj>, seen, locks := list.items, list.events, list.ledger.locks;
    var end := |list.items| - 1;
    SwapToEnd(list, found.value);
    ghost var t: seq<Obj>, mid := list.items, list.events;
    RemovedIs(t, end);
    var _ := list.Remove(end);
    BalancedTrans(locks, s, locks, t, list.ledger.locks, list.items);
    list.FollowsTrans(s, seen, t, mid);
    return true, key;
  }

  /** The last item changes places with another one. */
  method SwapToEnd(list: BlueList, key: nat)
    requires list.Valid() && key < |list.items|
    modifies list
    ensures list.Valid() && list.notify == old(list.notify) && |list.items| == |old(list.items)|
    ensures RemovedAt(list.items, |list.items| - 1) == old(list.items)[key := Last(old(list.items))][..|list.items| - 1]
    ensures multiset(RemovedAt(list.items, |list.items| - 1))
         == multiset(old(list.items)) - multiset{old(list.items)[key]}
    ensures Balanced(list.ledger.locks, old(list.items), list.ledger.locks, list.items)
    ensures list.Follows(old(list.items), old(list.events))
  {
    hide Covers, Balanced, Last, RemovedAt;
    list.NothingChanged();
    ghost var s: seq<Obj> := list.items;
    var end := |list.items| - 1;
    if key != end {
      var _ := list.Swap(key, end);
    }
    SwappedToEnd(s, key, list.items);
  }

  lemma SwappedToEnd(s: seq<Obj>, k: int, t: seq<Obj>)
    requires 0 <= k < |s|
    requires t == if k == |s| - 1 then s else s[k := s[|s| - 1]][|s| - 1 := s[k]]
    ensures RemovedAt(t, |s| - 1) == s[k := Last(s)][..|s| - 1]
    ensures multiset(RemovedAt(t, |s| - 1)) == multiset(s) - multiset{s[k]}
  {
    var r := RemovedAt(t, |s| - 1);
    assert r == t[..|s| - 1];
    assert t == r + [s[k]];
    SwappedOrSame(s, k, t);
    hide RemovedAt;
    LastOut(r, s[k]);
  }

  lemma SwappedOrSame(s: seq<Obj>, k: int, t: seq<Obj>)
    requires 0 <= k < |s|
    requires t == if k == |s| - 1 then s else s[k := s[|s| - 1]][|s| - 1 := s[k]]
    ensures multiset(t) == multiset(s)
  {
    if k != |s| - 1 { SwappedSame(s, k, |s| - 1); }
  }

  lemma LastOut(r: seq<Obj>, o: Obj)
    ensures multiset(r) == multiset(r + [o]) - multiset{o}
  {
  }

  function Last(s: seq<Obj>): Obj
    requires s != []
  {
    s[|s| - 1]
  }

  function Clamp(x: int, low: int, high: int): int {
    if x < low then low else if x > high then high else x
  }

  /** Clamping answers the nearest number of the range. */
  lemma ClampIsNearest(x: int, low: int, high: int, y: int)
    requires low <= y <= high
    ensures var c := Clamp(x, low, high);
            low <= c <= high && (x <= c <= y || y <= c <= x || c == x)
  {
  }

  /**
   Replaces items[low..high], after clamping, by the elements of a source sequence that is not the
   list and holds its elements itself; no source means deletion. An element that is not an object
   of the list's type stops the insertion there.
   */
  method AssignSlice(list: BlueList, low0: int, high0: int, source: Option<seq<Option<Obj>>>)
    returns (ok: bool, ghost k: nat)
    requires list.Valid()
    requires source.Some? ==> HeldOutside(list.ledger.locks, list.items, source.value)
    modifies list, list.ledger
    ensures list.Valid() && list.notify == old(list.notify)
    ensures var n := |old(list.items)|;
            var low := Clamp(low0, 0, n);
            var high := Clamp(high0, low, n);
            var src := if source.None? then [] else source.value;
            if !list.assignable then !ok && list.items == old(list.items)
            else k <= |src| && Usable(list, src[..k]) && (ok <==> k == |src|)
                 && (k < |src| ==> !(src[k].Some? && src[k].value in list.accepted))
                 && list.items == old(list.items)[..low] + Objects(src[..k]) + old(list.items)[high..]
    ensures Balanced(old(list.ledger.locks), old(list.items), list.ledger.locks, list.items)
    ensures list.Follows(old(list.items), old(list.events))
  {
    hide Covers, Balanced;
    list.NothingChanged();
    if !list.assignable {
      return false, 0;
    }
    ghost var s: seq<Obj>, seen, locks := list.items, list.events, list.ledger.locks;
    var size := |list.items|;
    var low := if low0 < 0 then 0 else if low0 > size then size else low0;
    var high := if high0 < low then low else if high0 > size then size else high0;
    RemoveSlice(list, low, high);
    ghost var t: seq<Obj>, mid, midLocks := list.items, list.events, list.ledger.locks;
    if source.None? {
      ghost var none: seq<Option<Obj>> := [];
      assert none[..0] == none && Objects(none) == [];
      assert t == s[..low] + Objects(none) + s[high..];
      return true, 0;
    }
    StillHeldOutside(locks, s, midLocks, t, source.value);
    ok, k := InsertSlice(list, low, source.value);
    BalancedTrans(locks, s, midLocks, t, list.ledger.locks, list.items);
    list.FollowsTrans(s, seen, t, mid);
    assert t[..low] == s[..low] && t[low..] == s[high..];
  }

  /** What item `i` is when the list itself is read while copies of its items are inserted at `low`. */
  function SelfRead(s: seq<Obj>, low: nat, high: nat, i: nat): Obj
    requires low <= high <= |s| && (low > 0 || high < |s|)
    decreases i
  {
    if low == 0 then s[high] else if i < low then s[i] else SelfRead(s, low, high, i - low)
  }

  function SelfTaken(s: seq<Obj>, low: nat, high: nat, k: nat): (t: seq<Obj>)
    requires low <= high <= |s| && (low > 0 || high < |s| || k == 0)
    ensures |t| == k
  {
    seq(k, i requires 0 <= i < k => SelfRead(s, low, high, i))
  }

  /** The next item read is the one `low` places before it, or the first one behind the slice. */
  lemma SelfReadNext(s: seq<Obj>, low: nat, high: nat, k: nat)
    requires low <= high <= |s| && (low > 0 || high < |s|)
    ensures var cur := s[..low] + SelfTaken(s, low, high, k) + s[high..];
            k < |cur| && cur[k] == SelfRead(s, low, high, k)
  {
  }

  lemma NothingTaken(s: seq<Obj>, low: nat, high: nat)
    requires low <= high <= |s|
    ensures SelfTaken(s, low, high, 0) == []
  {
  }

  lemma SelfTakenMore(s: seq<Obj>, low: nat, high: nat, k: nat)
    requires low <= high <= |s| && (low > 0 || high < |s|)
    ensures SelfTaken(s, low, high, k + 1) == SelfTaken(s, low, high, k) + [SelfRead(s, low, high, k)]
    ensures var cur := s[..low] + SelfTaken(s, low, high, k) + s[high..];
            low + k <= |cur| && InsertedAt(cur, low + k, SelfRead(s, low, high, k))
                             == s[..low] + SelfTaken(s, low, high, k + 1) + s[high..]
  {
  }

  /**
   The same when the source is the list: its items are read from the list that is being changed. When
   the whole list is replaced nothing is left to read, and the list stays empty.
   */
  method AssignSliceSelf(list: BlueList, low0: int, high0: int) returns (ok: bool, ghost k: nat)
    requires list.Valid()
    modifies list, list.ledger
    ensures list.Valid() && list.notify == old(list.notify)
    ensures var s: seq<Obj> := old(list.items);
            var low: nat := Clamp(low0, 0, |s|);
            var high: nat := Clamp(high0, low, |s|);
            if !list.assignable then !ok && list.items == s
            else if low == 0 && high == |s| then list.items == [] && (ok <==> s == [])
            else k <= |s| && (ok <==> k == |s|) && (k < |s| ==> SelfRead(s, low, high, k) !in list.accepted)
                 && list.items == s[..low] + SelfTaken(s, low, high, k) + s[high..]
    ensures Balanced(old(list.ledger.locks), old(list.items), list.ledger.locks, list.items)
    ensures list.Follows(old(list.items), old(list.events))
  {
    hide Covers, Balanced, SelfTaken, SelfRead, InsertedAt;
    k := 0;
    list.NothingChanged();
    ghost var s: seq<Obj>, seen, locks := list.items, list.events, list.ledger.locks;
    var srcLen := |list.items|;
    if !list.assignable {
      return false, 0;
    }
    var low: nat := if low0 < 0 then 0 else if low0 > srcLen then srcLen else low0;
    var high: nat := if high0 < low then low else if high0 > srcLen then srcLen else high0;
    RemoveSlice(list, low, high);
    if low == 0 && high == srcLen {
      return srcLen == 0, 0;
    }
    ghost var mid, midLocks := list.events, list.ledger.locks;
    ok, k := InsertSelf(list, low, high, srcLen, s);
    BalancedTrans(locks, s, midLocks, s[..low] + s[high..], list.ledger.locks, list.items);
    list.FollowsTrans(s, seen, s[..low] + s[high..], mid);
  }

  method InsertSelf(list: BlueList, low: nat, high: nat, srcLen: nat, ghost s: seq<Obj>)
    returns (ok: bool, ghost k: nat)
    requires list.Valid() && low <= high <= |s| && (low > 0 || high < |s|) && srcLen == |s|
    requires list.items == s[..low] + s[high..]
    modifies list, list.ledger
    ensures list.Valid() && list.notify == old(list.notify)
    ensures k <= |s| && (ok <==> k == |s|) && (k < |s| ==> SelfRead(s, low, high, k) !in list.accepted)
    ensures list.items == s[..low] + SelfTaken(s, low, high, k) + s[high..]
    ensures Balanced(old(list.ledger.locks), old(list.items), list.ledger.locks, list.items)
    ensures list.Follows(old(list.items), old(list.events))
  {
    hide Covers, Balanced, SelfRead, SelfTaken, InsertedAt;
    k := 0;
    list.NothingChanged();
    ghost var was: seq<Obj>, seen, locks := list.items, list.events, list.ledger.locks;
    NothingTaken(s, low, high);
    for i := 0 to srcLen
      invariant k == i && list.Valid() && list.notify == old(list.notify)
      invariant list.items == s[..low] + SelfTaken(s, low, high, i) + s[high..]
      invariant Balanced(locks, was, list.ledger.locks, list.items) && list.Follows(was, seen)
    {
      ghost var t: seq<Obj>, mid, midLocks := list.items, list.events, list.ledger.locks;
      SelfReadNext(s, low, high, i);
      SelfTakenMore(s, low, high, i);
      var item := list.items[i];
      ItemAlive(midLocks, t, item);
      var inserted := list.Insert(low + i, Some(item));
      BalancedTrans(locks, was, midLocks, t, list.ledger.locks, list.items);
      list.FollowsTrans(was, seen, t, mid);
      if !inserted {
        return false, i;
      }
      k := i + 1;
    }
    return true, srcLen;
  }

  /** Assigning a list to a slice of itself does what assigning a copy of it does exactly when it repeats. */
  lemma SelfSliceExactly(s: seq<Obj>, low: nat, high: nat)
    requires low <= high <= |s| && (low > 0 || high < |s|)
    ensures s[..low] + SelfTaken(s, low, high, |s|) + s[high..] == s[..low] + s + s[high..]
            <==> if low > 0 then forall i | low <= i < |s| :: s[i] == s[i - low] else forall x | x in s :: x == s[high]
  {
    var t := SelfTaken(s, low, high, |s|);
    if s[..low] + t + s[high..] == s[..low] + s + s[high..] {
      SamePart(s[..low], t, s, s[high..]);
      forall i | low <= i < |s| && low > 0 ensures s[i] == s[i - low] {
        assert t[i] == s[i] && t[i - low] == s[i - low];
      }
      forall x | x in s && low == 0 ensures x == s[high] {
        var i :| 0 <= i < |s| && s[i] == x;
        assert t[i] == s[i];
      }
    }
    if low > 0 && forall i | low <= i < |s| :: s[i] == s[i - low] {
      forall i: nat | i < |s| ensures t[i] == s[i] { Repeats(s, low, high, i); }
      assert t == s;
    }
    if low == 0 && forall x | x in s :: x == s[high] {
      forall i | 0 <= i < |s| ensures t[i] == s[i] { assert s[i] in s; }
      assert t == s;
    }
  }

  lemma SamePart(a: seq<Obj>, t: seq<Obj>, s: seq<Obj>, c: seq<Obj>)
    requires |t| == |s| && a + t + c == a + s + c
    ensures t == s
  {
    forall i | 0 <= i < |s| ensures t[i] == s[i] {
      assert (a + t + c)[|a| + i] == t[i] && (a + s + c)[|a| + i] == s[i];
    }
  }

  lemma {:induction false} Repeats(s: seq<Obj>, low: nat, high: nat, i: nat)
    requires 0 < low <= high <= |s| && i < |s| && forall j | low <= j < |s| :: s[j] == s[j - low]
    ensures SelfRead(s, low, high, i) == s[i]
  {
    if i >= low { Repeats(s, low, high, i - low); }
  }

  method RemoveSlice(list: BlueList, low: nat, high: nat)
    requires list.Valid() && low <= high <= |list.items|
    modifies list, list.ledger
    ensures list.Valid() && list.notify == old(list.notify)
    ensures list.items == old(list.items)[..low] + old(list.items)[high..]
    ensures Balanced(old(list.ledger.locks), old(list.items), list.ledger.locks, list.items)
    ensures list.Follows(old(list.items), old(list.events))
  {
    hide Covers, Balanced;
    list.NothingChanged();
    ghost var s: seq<Obj>, seen, locks := list.items, list.events, list.ledger.locks;
    if low == 0 && high == |list.items| {
      var _ := list.Remove(-1);
    } else {
      for i := low to high
        invariant list.Valid() && list.notify == old(list.notify)
        invariant list.items == s[..low] + s[i..]
        invariant Balanced(locks, s, list.ledger.locks, list.items) && list.Follows(s, seen)
      {
        ghost var t: seq<Obj>, mid, midLocks := list.items, list.events, list.ledger.locks;
        assert low < |t|;
        var _ := list.Remove(low);
        BalancedTrans(locks, s, midLocks, t, list.ledger.locks, list.items);
        list.FollowsTrans(s, seen, t, mid);
        SliceShrinks(s, t, low, i);
      }
    }
  }

  lemma SliceShrinks(s: seq<Obj>, t: seq<Obj>, low: nat, i: nat)
    requires low <= i < |s| && t == s[..low] + s[i..]
    ensures low < |t| && t[..low] + t[low + 1..] == s[..low] + s[i + 1..]
  {
  }

  method InsertSlice(list: BlueList, low: nat, src: seq<Option<Obj>>) returns (ok: bool, ghost k: nat)
    requires list.Valid() && low <= |list.items| && HeldOutside(list.ledger.locks, list.items, src)
    modifies list, list.ledger
    ensures list.Valid() && list.notify == old(list.notify)
    ensures k <= |src| && Usable(list, src[..k]) && (ok <==> k == |src|)
    ensures k < |src| ==> !(src[k].Some? && src[k].value in list.accepted)
    ensures list.items == old(list.items)[..low] + Objects(src[..k]) + old(list.items)[low..]
    ensures Balanced(old(list.ledger.locks), old(list.items), list.ledger.locks, list.items)
    ensures list.Follows(old(list.items), old(list.events))
  {
    hide Covers, Balanced, HeldOutside;
    list.NothingChanged();
    ghost var s: seq<Obj>, seen, locks := list.items, list.events, list.ledger.locks;
    k := 0;
    for i := 0 to |src|
      invariant k == i && list.Valid() && list.notify == old(list.notify) && Usable(list, src[..i])
      invariant list.items == s[..low] + Objects(src[..i]) + s[low..]
      invariant HeldOutside(list.ledger.locks, list.items, src)
      invariant Balanced(locks, s, list.ledger.locks, list.items) && list.Follows(s, seen)
    {
      if src[i].None? {
        return false, i;
      }
      ghost var t: seq<Obj>, mid, midLocks := list.items, list.events, list.ledger.locks;
      HeldAlive(midLocks, t, src, i);
      assert |t| == |s| + i;
      var inserted := list.Insert(low + i, src[i]);
      BalancedTrans(locks, s, midLocks, t, list.ledger.locks, list.items);
      list.FollowsTrans(s, seen, t, mid);
      if !inserted {
        return false, i;
      }
      StillHeldOutside(midLocks, t, list.ledger.locks, list.items, src);
      ObjectsMore(src, i);
      assert InsertedAt(t, low + i, src[i].value) == s[..low] + Objects(src[..i + 1]) + s[low..];
      k := i + 1;
    }
    assert src[..|src|] == src;
    return true, |src|;
  }

  /** The source sequence has locks of its own on its elements. */
  ghost predicate HeldOutside(locks: map<Obj, int>, items: seq<Obj>, src: seq<Option<Obj>>) {
    forall i | 0 <= i < |src| && src[i].Some? :: LocksOf(locks, src[i].value) > Count(items, src[i].value)
  }

  lemma StillHeldOutside(before: map<Obj, int>, was: seq<Obj>, after: map<Obj, int>, items: seq<Obj>,
          src: seq<Option<Obj>>)
    requires HeldOutside(before, was, src) && Balanced(before, was, after, items)
    ensures HeldOutside(after, items, src)
  {
  }

  lemma HeldAlive(locks: map<Obj, int>, items: seq<Obj>, src: seq<Option<Obj>>, i: nat)
    requires HeldOutside(locks, items, src) && i < |src| && src[i].Some?
    ensures src[i].value in locks
  {
  }

  predicate Usable(list: BlueList, src: seq<Option<Obj>>) {
    forall i | 0 <= i < |src| :: src[i].Some? && src[i].value in list.accepted
  }

  function Objects(src: seq<Option<Obj>>): (s: seq<Obj>)
    requires forall i | 0 <= i < |src| :: src[i].Some?
    ensures |s| == |src|
  {
    seq(|src|, i requires 0 <= i < |src| => src[i].value)
  }

  lemma ObjectsMore(src: seq<Option<Obj>>, i: nat)
    requires i < |src| && forall j | 0 <= j <= i :: src[j].Some?
    ensures Objects(src[..i + 1]) == Objects(src[..i]) + [src[i].value]
  {
  }
}

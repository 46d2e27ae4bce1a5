/**
 Lists and dictionaries side by side: whatever is done to them, in any order, every lock count is
 the number of outside holders plus the number of slots and entries that hold the object.
 */
module Containers {

  import opened Basics
  import L = Ledgers
  import B = BlueLists
  import D = BlueDicts

  type Obj = L.Obj

  ghost function ListSlots(ss: seq<seq<Obj>>, o: Obj): nat {
    if ss == [] then 0 else L.Count(ss[0], o) + ListSlots(ss[1..], o)
  }

  ghost function DictSlots(es: seq<D.Entries>, o: Obj): nat {
    if es == [] then 0 else D.Slots(es[0], o) + DictSlots(es[1..], o)
  }

  lemma {:induction false} ListChanged(ss: seq<seq<Obj>>, i: nat, s: seq<Obj>, o: Obj)
    requires i < |ss|
    ensures ListSlots(ss[i := s], o) == ListSlots(ss, o) - L.Count(ss[i], o) + L.Count(s, o)
    ensures L.Count(ss[i], o) <= ListSlots(ss, o)
  {
    if i > 0 {
      ListChanged(ss[1..], i - 1, s, o);
      assert ss[i := s][1..] == ss[1..][i - 1 := s];
    } else {
      assert ss[0 := s][1..] == ss[1..];
    }
  }

  lemma {:induction false} DictChanged(es: seq<D.Entries>, i: nat, e: D.Entries, o: Obj)
    requires i < |es|
    ensures DictSlots(es[i := e], o) == DictSlots(es, o) - D.Slots(es[i], o) + D.Slots(e, o)
    ensures D.Slots(es[i], o) <= DictSlots(es, o)
  {
    hide D.Slots;
    if i > 0 {
      DictChanged(es[1..], i - 1, e, o);
      assert es[i := e][1..] == es[1..][i - 1 := e];
    } else {
      assert es[0 := e][1..] == es[1..];
    }
  }

  /** The law: outside holders plus slots plus entries. */
  ghost predicate Conserved(locks: map<Obj, int>, outside: map<Obj, int>, ss: seq<seq<Obj>>, es: seq<D.Entries>) {
    && L.Alive(locks)
    && (forall o | o in outside :: outside[o] >= 0)
    && forall o :: L.LocksOf(locks, o) == L.LocksOf(outside, o) + ListSlots(ss, o) + DictSlots(es, o)
  }

  lemma ListCovered(locks: map<Obj, int>, outside: map<Obj, int>, ss: seq<seq<Obj>>, es: seq<D.Entries>, i: nat)
    requires Conserved(locks, outside, ss, es) && i < |ss|
    ensures L.Covers(locks, ss[i])
    ensures forall o :: L.LocksOf(locks, o) >= L.LocksOf(outside, o) + L.Count(ss[i], o)
  {
    forall o ensures L.LocksOf(locks, o) >= L.LocksOf(outside, o) + L.Count(ss[i], o) && L.LocksOf(outside, o) >= 0 {
      ListChanged(ss, i, ss[i], o);
    }
  }

  lemma DictCovered(locks: map<Obj, int>, outside: map<Obj, int>, ss: seq<seq<Obj>>, es: seq<D.Entries>, i: nat)
    requires Conserved(locks, outside, ss, es) && i < |es|
    ensures D.Covers(locks, es[i])
    ensures forall o :: L.LocksOf(locks, o) >= L.LocksOf(outside, o) + D.Slots(es[i], o)
  {
    hide D.Slots;
    forall o ensures L.LocksOf(locks, o) >= L.LocksOf(outside, o) + D.Slots(es[i], o) && L.LocksOf(outside, o) >= 0 {
      DictChanged(es, i, es[i], o);
    }
  }

  lemma ListKeeps(before: map<Obj, int>, after: map<Obj, int>, outside: map<Obj, int>,
                  ss: seq<seq<Obj>>, es: seq<D.Entries>, i: nat, s: seq<Obj>)
    requires Conserved(before, outside, ss, es) && i < |ss|
    requires L.Balanced(before, ss[i], after, s) && L.Alive(after)
    ensures Conserved(after, outside, ss[i := s], es)
  {
    forall o ensures L.LocksOf(after, o) == L.LocksOf(outside, o) + ListSlots(ss[i := s], o) + DictSlots(es, o) {
      ListChanged(ss, i, s, o);
    }
  }

  lemma DictKeeps(before: map<Obj, int>, after: map<Obj, int>, outside: map<Obj, int>,
                  ss: seq<seq<Obj>>, es: seq<D.Entries>, i: nat, e: D.Entries)
    requires Conserved(before, outside, ss, es) && i < |es|
    requires D.Balanced(before, es[i], after, e) && L.Alive(after)
    ensures Conserved(after, outside, ss, es[i := e])
  {
    hide D.Slots;
    forall o ensures L.LocksOf(after, o) == L.LocksOf(outside, o) + ListSlots(ss, o) + DictSlots(es[i := e], o) {
      DictChanged(es, i, e, o);
    }
  }

  /** A new entry takes over a lock from outside. */
  lemma InsertKeeps(locks: map<Obj, int>, outside: map<Obj, int>, ss: seq<seq<Obj>>, es: seq<D.Entries>, i: nat,
                    name: string, item: Obj, e: D.Entries)
    requires Conserved(locks, outside, ss, es) && i < |es| && name !in es[i] && L.LocksOf(outside, item) > 0
    requires e == es[i][name := item]
    ensures Conserved(locks, outside[item := outside[item] - 1], ss, es[i := e])
  {
    hide D.Slots, ListSlots, DictSlots;
    var now := outside[item := outside[item] - 1];
    forall o ensures L.LocksOf(locks, o)
                  == L.LocksOf(now, o) + ListSlots(ss, o) + DictSlots(es[i := e], o)
    {
      DictChanged(es, i, e, o);
      D.EntryAdded(es[i], name, item, o);
    }
  }

  /** A client takes or gives up locks of its own. */
  lemma OutsideKeeps(before: map<Obj, int>, after: map<Obj, int>, was: map<Obj, int>, outside: map<Obj, int>,
                     ss: seq<seq<Obj>>, es: seq<D.Entries>)
    requires Conserved(before, was, ss, es) && L.Alive(after) && forall o | o in outside :: outside[o] >= 0
    requires forall o :: L.LocksOf(after, o) - L.LocksOf(before, o) == L.LocksOf(outside, o) - L.LocksOf(was, o)
    ensures Conserved(after, outside, ss, es)
  {
    hide ListSlots, DictSlots;
  }

  lemma ConservedAlive(locks: map<Obj, int>, outside: map<Obj, int>, ss: seq<seq<Obj>>, es: seq<D.Entries>)
    requires Conserved(locks, outside, ss, es)
    ensures L.Alive(locks)
    ensures forall o | o in outside :: outside[o] >= 0
    ensures forall o :: L.LocksOf(outside, o) <= L.LocksOf(locks, o)
  {
  }

  // ---------- runs ----------

  datatype ListOp =
    | Insert(key: int, value: Obj)
    | Append(value: Obj)
    | Remove(key: int)
    | Swap(key1: int, key2: int)
    | Move(from: int, to: int)
    | AssignSlice(low: int, high: int, source: Option<seq<Option<Obj>>>)
    | AssignOwnSlice(low: int, high: int)
    | Fremove(value: Obj)

  datatype DictOp =
    | Assign(name: string, item: Obj)
    | Delete(name: string)
    | Clear
    | InsertEntry(name: string, item: Obj)
    | GetKey(index: nat)
    | GetItems

  datatype Op =
    | Create(o: Obj)
    | TakeLock(o: Obj)
    | DropLock(o: Obj)
    | OnList(list: nat, listOp: ListOp)
    | OnDict(dict: nat, dictOp: DictOp)

  // ---------- what each operation does ----------

  /** The contents of all containers, the outside holders, and the locks. */
  datatype Contents = Contents(
    items: seq<seq<Obj>>, entries: seq<D.Entries>, outside: map<Obj, int>, locks: map<Obj, int>)

  /** What a list takes: the objects of its type, and whether slices may be assigned. */
  datatype Kind = Kind(accepted: set<Obj>, assignable: bool)

  ghost predicate Held(outside: map<Obj, int>, source: seq<Option<Obj>>) {
    forall k | 0 <= k < |source| && source[k].Some? :: L.LocksOf(outside, source[k].value) > 0
  }

  /** What is assigned to a slice: nothing, when it is deleted. */
  function Elements(source: Option<seq<Option<Obj>>>): seq<Option<Obj>> {
    if source.None? then [] else source.value
  }

  /** A list before and after an operation. */
  ghost predicate ListDid(op: ListOp, c: Contents, kind: Kind, s: seq<Obj>, t: seq<Obj>) {
    match op
    case Insert(key, v) =>
      if v in c.locks && v in kind.accepted && -1 <= key <= |s| then
        var k := if key == -1 then |s| else key;
        t == s[..k] + [v] + s[k..]
      else t == s
    case Append(v) => t == if v in c.locks && v in kind.accepted then s + [v] else s
    case Remove(key) => t == if key == -1 then [] else if 0 <= key < |s| then s[..key] + s[key + 1..] else s
    case Swap(a, b) => t == if 0 <= a < |s| && 0 <= b < |s| then s[a := s[b]][b := s[a]] else s
    case Move(from, to) =>
      if 0 <= from < |s| && 0 <= to < |s| then
        var rest := s[..from] + s[from + 1..];
        t == rest[..to] + [s[from]] + rest[to..]
      else t == s
    case AssignSlice(low0, high0, source) =>
      if kind.assignable && (source.None? || Held(c.outside, source.value)) then
        var low := B.Clamp(low0, 0, |s|);
        var high := B.Clamp(high0, low, |s|);
        var src := Elements(source);
        exists k: nat :: Taken(kind, src, k) && Spliced(s, low, high, src, k, t)
      else t == s
    case AssignOwnSlice(low0, high0) =>
      var low := B.Clamp(low0, 0, |s|);
      var high := B.Clamp(high0, low, |s|);
      if !kind.assignable then t == s
      else if low == 0 && high == |s| then t == []
      else exists k: nat :: OwnTaken(kind, s, low, high, k) && t == s[..low] + B.SelfTaken(s, low, high, k) + s[high..]
    case Fremove(v) =>
      if v in kind.accepted && v in s then
        exists k :: 0 <= k < |s| && s[k] == v && t == s[k := s[|s| - 1]][..|s| - 1]
      else t == s
  }

  /** The first `k` elements of the source are taken: all, or those before the first that is not acceptable. */
  ghost predicate Taken(kind: Kind, src: seq<Option<Obj>>, k: nat) {
    && k <= |src| && (forall i | 0 <= i < k :: src[i].Some? && src[i].value in kind.accepted)
    && (k < |src| ==> !(src[k].Some? && src[k].value in kind.accepted))
  }

  ghost predicate Spliced(s: seq<Obj>, low: nat, high: nat, src: seq<Option<Obj>>, k: nat, t: seq<Obj>)
    requires low <= high <= |s| && k <= |src| && forall i | 0 <= i < k :: src[i].Some?
  {
    && |t| == low + k + |s| - high && t[..low] == s[..low] && t[low + k..] == s[high..]
    && forall i | 0 <= i < k :: t[low + i] == src[i].value
  }

  ghost predicate OwnTaken(kind: Kind, s: seq<Obj>, low: nat, high: nat, k: nat)
    requires low <= high <= |s| && (low > 0 || high < |s|)
  {
    k <= |s| && (k < |s| ==> B.SelfRead(s, low, high, k) !in kind.accepted)
  }

  /** A dictionary before and after an operation. */
  ghost predicate DictDid(op: DictOp, c: Contents, e: D.Entries, f: D.Entries) {
    match op
    case Assign(name, item) => f == if L.LocksOf(c.outside, item) > 0 then e[name := item] else e
    case Delete(name) => f == e - {name}
    case Clear => f == map[]
    case InsertEntry(name, item) =>
      f == if L.LocksOf(c.outside, item) > 0 && name !in e then e[name := item] else e
    case GetKey(_) => f == e
    case GetItems => f == e
  }

  /** What the operation makes of the outside holders. */
  function OutsideAfter(op: Op, c: Contents): map<Obj, int> {
    match op
    case Create(o) => if o !in c.locks then c.outside[o := 1] else c.outside
    case TakeLock(o) => if o in c.locks then c.outside[o := L.LocksOf(c.outside, o) + 1] else c.outside
    case DropLock(o) => if L.LocksOf(c.outside, o) > 0 then c.outside[o := c.outside[o] - 1] else c.outside
    case OnDict(i, InsertEntry(name, item)) =>
      if i < |c.entries| && L.LocksOf(c.outside, item) > 0 && name !in c.entries[i]
      then c.outside[item := c.outside[item] - 1] else c.outside
    case _ => c.outside
  }

  /** One operation: it does its work on its container, and on nothing else. */
  ghost predicate Did(kinds: seq<Kind>, c: Contents, op: Op, d: Contents) {
    && |c.items| == |d.items| == |kinds| && |c.entries| == |d.entries|
    && d.outside == OutsideAfter(op, c)
    && (forall i | 0 <= i < |c.items| ::
          if op.OnList? && op.list == i then ListDid(op.listOp, c, kinds[i], c.items[i], d.items[i])
          else d.items[i] == c.items[i])
    && (forall i | 0 <= i < |c.entries| ::
          if op.OnDict? && op.dict == i then DictDid(op.dictOp, c, c.entries[i], d.entries[i])
          else d.entries[i] == c.entries[i])
  }

  class World {
    const ledger: L.Ledger
    const lists: seq<B.BlueList>
    const dicts: seq<D.BlueDict>
    var outside: map<Obj, int>

    ghost predicate Separate()
    {
      && (forall i, j | 0 <= i < j < |lists| :: lists[i] != lists[j])
      && (forall i, j | 0 <= i < j < |dicts| :: dicts[i] != dicts[j])
      && (forall i | 0 <= i < |lists| :: lists[i].ledger == ledger)
      && (forall i | 0 <= i < |dicts| :: dicts[i].ledger == ledger)
    }

    ghost function Items(): seq<seq<Obj>>
      reads lists
    {
      seq(|lists|, i requires 0 <= i < |lists| reads lists => lists[i].items)
    }

    ghost function Entries(): seq<D.Entries>
      reads dicts
    {
      seq(|dicts|, i requires 0 <= i < |dicts| reads dicts => dicts[i].entries)
    }

    ghost function Now(): Contents
      reads this, ledger, lists, dicts
    {
      Contents(Items(), Entries(), outside, ledger.locks)
    }

    ghost function Kinds(): seq<Kind> {
      seq(|lists|, i requires 0 <= i < |lists| => Kind(lists[i].accepted, lists[i].assignable))
    }

    ghost predicate Valid()
      reads this, ledger, lists, dicts
    {
      && Separate()
      && Conserved(ledger.locks, outside, Items(), Entries())
      && forall i | 0 <= i < |dicts| :: dicts[i].Listed()
    }

    constructor (ledger: L.Ledger, lists: seq<B.BlueList>, dicts: seq<D.BlueDict>)
      requires ledger.locks == map[]
      requires forall i, j | 0 <= i < j < |lists| :: lists[i] != lists[j]
      requires forall i, j | 0 <= i < j < |dicts| :: dicts[i] != dicts[j]
      requires forall l | l in lists :: l.ledger == ledger && l.items == []
      requires forall d | d in dicts :: d.ledger == ledger && d.entries == map[] && d.Listed()
      ensures Valid() && this.lists == lists && this.dicts == dicts && this.ledger == ledger
    {
      this.ledger := ledger;
      this.lists := lists;
      this.dicts := dicts;
      outside := map[];
      new;
      forall o ensures ListSlots(Items(), o) == 0 && DictSlots(Entries(), o) == 0 {
        NoSlots(Items(), Entries(), o);
      }
    }

    // What a list operation promises is what the law needs of it.
    lemma ListDone(before: map<Obj, int>, ss: seq<seq<Obj>>, es: seq<D.Entries>, i: nat)
      requires i < |lists| && |ss| == |lists| && Conserved(before, outside, ss, es)
      requires L.Balanced(before, ss[i], ledger.locks, lists[i].items) && L.Alive(ledger.locks)
      requires forall j | 0 <= j < |lists| && j != i :: lists[j].items == ss[j]
      requires Entries() == es
      ensures Conserved(ledger.locks, outside, Items(), Entries())
    {
      ListKeeps(before, ledger.locks, outside, ss, es, i, lists[i].items);
      assert Items() == ss[i := lists[i].items];
    }

    lemma DictDone(before: map<Obj, int>, ss: seq<seq<Obj>>, es: seq<D.Entries>, i: nat)
      requires i < |dicts| && |es| == |dicts| && Conserved(before, outside, ss, es)
      requires D.Balanced(before, es[i], ledger.locks, dicts[i].entries) && L.Alive(ledger.locks)
      requires forall j | 0 <= j < |dicts| && j != i :: dicts[j].entries == es[j]
      requires Items() == ss
      ensures Conserved(ledger.locks, outside, Items(), Entries())
    {
      DictKeeps(before, ledger.locks, outside, ss, es, i, dicts[i].entries);
      assert Entries() == es[i := dicts[i].entries];
    }

    lemma ListValid(i: nat)
      requires Valid() && i < |lists|
      ensures lists[i].Valid() && lists[i].ledger == ledger
      ensures forall o :: L.LocksOf(ledger.locks, o) >= L.LocksOf(outside, o) + L.Count(lists[i].items, o)
    {
      ListCovered(ledger.locks, outside, Items(), Entries(), i);
      assert Items()[i] == lists[i].items;
    }

    lemma DictValid(i: nat)
      requires Valid() && i < |dicts|
      ensures dicts[i].Valid() && dicts[i].ledger == ledger
      ensures forall o :: L.LocksOf(ledger.locks, o) >= L.LocksOf(outside, o) + D.Slots(dicts[i].entries, o)
    {
      DictCovered(ledger.locks, outside, Items(), Entries(), i);
      assert Entries()[i] == dicts[i].entries;
    }

    method ApplySlice(i: nat, low: int, high: int, source: Option<seq<Option<Obj>>>)
      requires Valid() && i < |lists|
      modifies ledger, lists[i]
      ensures L.Balanced(old(ledger.locks), old(lists[i].items), ledger.locks, lists[i].items) && lists[i].Valid()
      ensures lists[i].notify == old(lists[i].notify)
      ensures lists[i].Follows(old(lists[i].items), old(lists[i].events))
      ensures ListDid(ListOp.AssignSlice(low, high, source), old(Now()), Kinds()[i], old(lists[i].items),
                      lists[i].items)
    {
      hide L.Covers, L.Balanced, Conserved, ListDid;
      ListValid(i);
      ghost var c, kind := Now(), Kinds()[i];
      if source.None? || Holds(source.value) {
        HeldByHolder(i, source);
        ghost var s, src := lists[i].items, Elements(source);
        var _, k := B.AssignSlice(lists[i], low, high, source);
        if lists[i].assignable {
          SliceTaken(kind, lists[i], src, k);
          ghost var from := B.Clamp(low, 0, |s|);
          SliceSpliced(s, from, B.Clamp(high, from, |s|), src, k, lists[i].items);
          SliceDid(low, high, source, c, kind, s, lists[i].items, k);
        } else {
          NoSliceDid(low, high, source, c, kind, s);
        }
      } else {
        lists[i].NothingChanged();
        NoSliceDid(low, high, source, c, kind, lists[i].items);
      }
    }

    lemma SliceDid(low0: int, high0: int, source: Option<seq<Option<Obj>>>, c: Contents, kind: Kind, s: seq<Obj>,
                   t: seq<Obj>, k: nat)
      requires kind.assignable && (source.None? || Held(c.outside, source.value))
      requires var low := B.Clamp(low0, 0, |s|); var src := Elements(source);
               Taken(kind, src, k) && Spliced(s, low, B.Clamp(high0, low, |s|), src, k, t)
      ensures ListDid(ListOp.AssignSlice(low0, high0, source), c, kind, s, t)
    {
      hide Taken, Spliced;
    }

    lemma NoSliceDid(low0: int, high0: int, source: Option<seq<Option<Obj>>>, c: Contents, kind: Kind, s: seq<Obj>)
      requires !kind.assignable || (source.Some? && !Held(c.outside, source.value))
      ensures ListDid(ListOp.AssignSlice(low0, high0, source), c, kind, s, s)
    {
    }

    lemma SliceSpliced(s: seq<Obj>, low: nat, high: nat, src: seq<Option<Obj>>, k: nat, t: seq<Obj>)
      requires low <= high <= |s| && k <= |src| && forall i | 0 <= i < k :: src[i].Some?
      requires t == s[..low] + B.Objects(src[..k]) + s[high..]
      ensures Spliced(s, low, high, src, k, t)
    {
    }

    lemma SliceTaken(kind: Kind, list: B.BlueList, src: seq<Option<Obj>>, k: nat)
      requires kind.accepted == list.accepted && k <= |src| && B.Usable(list, src[..k])
      requires k < |src| ==> !(src[k].Some? && src[k].value in list.accepted)
      ensures Taken(kind, src, k)
    {
      assert forall j | 0 <= j < k :: src[..k][j] == src[j];
    }

    /** Clients pass objects they hold, and do not move an item to -1. */
    method ApplyToList(i: nat, op: ListOp)
      requires Valid() && i < |lists|
      modifies ledger, lists[i]
      ensures L.Balanced(old(ledger.locks), old(lists[i].items), ledger.locks, lists[i].items) && L.Alive(ledger.locks)
      ensures lists[i].notify == old(lists[i].notify)
      ensures lists[i].Follows(old(lists[i].items), old(lists[i].events))
      ensures ListDid(op, old(Now()), Kinds()[i], old(lists[i].items), lists[i].items)
    {
      hide L.Covers, L.Balanced, Conserved;
      ListValid(i);
      match op {
        case Insert(key, value) =>
          if value in ledger.locks {
            var _ := lists[i].Insert(key, Some(value));
          } else {
            lists[i].NothingChanged();
          }
        case Append(value) =>
          if value in ledger.locks {
            var _ := lists[i].Append(Some(value));
          } else {
            lists[i].NothingChanged();
          }
        case Remove(key) => var _ := lists[i].Remove(key);
        case Swap(key1, key2) => var _ := lists[i].Swap(key1, key2);
        case Move(from, to) =>
          if to >= 0 {
            var _ := lists[i].Move(from, to);
          } else {
            lists[i].NothingChanged();
          }
        case AssignSlice(low, high, source) =>
          ApplySlice(i, low, high, source);
        case AssignOwnSlice(low0, high0) =>
          ghost var s := lists[i].items;
          ghost var low := B.Clamp(low0, 0, |s|);
          ghost var high := B.Clamp(high0, low, |s|);
          var _, k := B.AssignSliceSelf(lists[i], low0, high0);
          assert lists[i].assignable && (low > 0 || high < |s|) ==> OwnTaken(Kinds()[i], s, low, high, k);
        case Fremove(value) =>
          ghost var s := lists[i].items;
          var removed, k := B.Fremove(lists[i], value);
          assert removed ==> s[k] == value && lists[i].items == s[k := s[|s| - 1]][..|s| - 1];
      }
      L.CoversAlive(ledger.locks, lists[i].items);
    }

    method PerformOnList(i: nat, op: ListOp)
      requires Valid() && i < |lists|
      modifies ledger, lists
      ensures Valid() && Did(Kinds(), old(Now()), OnList(i, op), Now())
      ensures forall j | 0 <= j < |lists| ::
                lists[j].notify == old(lists[j].notify) && lists[j].Follows(old(lists[j].items), old(lists[j].events))
    {
      hide L.Covers, L.Balanced, Conserved, ListDid;
      ghost var before, ss, es := ledger.locks, Items(), Entries();
      ApplyToList(i, op);
      ListDone(before, ss, es, i);
      forall j | 0 <= j < |lists| && j != i ensures lists[j].Follows(old(lists[j].items), old(lists[j].events)) {
        lists[j].FollowsItself();
      }
    }

    /** Clients hold every object of the source. */
    predicate Holds(source: seq<Option<Obj>>)
      reads this
    {
      forall k | 0 <= k < |source| && source[k].Some? :: L.LocksOf(outside, source[k].value) > 0
    }

    lemma HeldByHolder(i: nat, source: Option<seq<Option<Obj>>>)
      requires Valid() && i < |lists| && (source.None? || Holds(source.value))
      ensures source.Some? ==> B.HeldOutside(ledger.locks, lists[i].items, source.value)
    {
      ListValid(i);
    }

    /** An entry is inserted with a lock that the client gives up, if it gets in. */
    method InsertEntry(i: nat, name: string, item: Obj)
      requires Valid() && i < |dicts|
      modifies `outside, dicts
      ensures Valid() && Did(Kinds(), old(Now()), OnDict(i, DictOp.InsertEntry(name, item)), Now())
    {
      hide D.Covers, Conserved, D.Slots;
      if L.LocksOf(outside, item) > 0 {
        ghost var was, ss, es := outside, Items(), Entries();
        DictValid(i);
        var added := dicts[i].Insert(name, item);
        if added {
          outside := outside[item := outside[item] - 1];
          InsertKeeps(ledger.locks, was, ss, es, i, name, item, dicts[i].entries);
          assert Entries() == es[i := dicts[i].entries];
        } else {
          assert Entries() == es;
        }
        assert Items() == ss;
      }
    }

    method ApplyToDict(i: nat, op: DictOp)
      requires Valid() && i < |dicts| && !op.InsertEntry?
      modifies ledger, dicts[i]
      ensures D.Balanced(old(ledger.locks), old(dicts[i].entries), ledger.locks, dicts[i].entries)
      ensures L.Alive(ledger.locks) && dicts[i].Listed()
      ensures DictDid(op, old(Now()), old(dicts[i].entries), dicts[i].entries)
    {
      hide D.Covers, D.Balanced, Conserved, D.Slots;
      DictValid(i);
      D.Same(ledger.locks, dicts[i].entries);
      match op {
        case Assign(name, item) =>
          if L.LocksOf(outside, item) > 0 {
            Assignable(i, name, item);
            var _ := dicts[i].AssignSubscript(name, Some(item));
          }
        case Delete(name) =>
          if name in dicts[i].entries {
            var _ := dicts[i].AssignSubscript(name, None);
          }
        case Clear => dicts[i].Clear();
        case GetKey(index) => var _ := dicts[i].GetKey(index);
        case GetItems => var _ := dicts[i].PyItems();
      }
      D.CoversAlive(ledger.locks, dicts[i].entries);
    }

    method PerformOnDict(i: nat, op: DictOp)
      requires Valid() && i < |dicts| && !op.InsertEntry?
      modifies ledger, dicts
      ensures Valid() && Did(Kinds(), old(Now()), OnDict(i, op), Now())
    {
      hide D.Covers, D.Balanced, Conserved, D.Slots, DictDid;
      ghost var before, ss, es := ledger.locks, Items(), Entries();
      ApplyToDict(i, op);
      DictDone(before, ss, es, i);
    }

    /** A value its client holds survives being assigned to its own entry. */
    lemma Assignable(i: nat, name: string, item: Obj)
      requires Valid() && i < |dicts| && L.LocksOf(outside, item) > 0
      ensures item in ledger.locks
      ensures name in dicts[i].entries && dicts[i].entries[name] == item ==> ledger.locks[item] > 1
    {
      DictValid(i);
      if name in dicts[i].entries && dicts[i].entries[name] == item {
        D.EntryAlive(ledger.locks, dicts[i].entries, name);
      }
    }

    method Perform(op: Op)
      requires Valid()
      modifies this, ledger, lists, dicts
      ensures Valid() && Did(Kinds(), old(Now()), op, Now())
      ensures forall j | 0 <= j < |lists| ::
                lists[j].notify == old(lists[j].notify) && lists[j].Follows(old(lists[j].items), old(lists[j].events))
    {
      hide Conserved;
      forall j | 0 <= j < |lists| ensures lists[j].Follows(lists[j].items, lists[j].events) {
        lists[j].FollowsItself();
      }
      match op {
        case OnList(i, listOp) =>
          if i < |lists| {
            PerformOnList(i, listOp);
          }
        case OnDict(i, dictOp) =>
          if i < |dicts| {
            if dictOp.InsertEntry? {
              InsertEntry(i, dictOp.name, dictOp.item);
            } else {
              PerformOnDict(i, dictOp);
            }
          }
        case _ => PerformClient(op);
      }
    }

    method PerformClient(op: Op)
      requires Valid() && (op.Create? || op.TakeLock? || op.DropLock?)
      modifies `outside, ledger
      ensures Valid() && Did(Kinds(), old(Now()), op, Now())
    {
      hide Conserved;
      ghost var before, was := ledger.locks, outside;
      ConservedAlive(before, was, Items(), Entries());
      match op {
        case Create(o) =>
          if o !in ledger.locks {
            outside := outside[o := 1];
            ledger.locks := ledger.locks[o := 1];
          }
        case TakeLock(o) =>
          if o in ledger.locks {
            outside := outside[o := L.LocksOf(outside, o) + 1];
            ledger.Lock(o);
          }
        case DropLock(o) =>
          if L.LocksOf(outside, o) > 0 {
            outside := outside[o := outside[o] - 1];
            ledger.Unlock(o);
          }
      }
      OutsideKeeps(before, ledger.locks, was, outside, Items(), Entries());
    }
  }

  /**
   Conservation holds after every sequence of operations on any number of containers, and the
   observer of each list, replaying its events, has the same list. Every operation has done its work:
   `states` are the contents between them.
   */
  method Run(world: World, ops: seq<Op>) returns (ghost states: seq<Contents>)
    requires world.Valid()
    modifies world, world.ledger, world.lists, world.dicts
    ensures world.Valid()
    ensures |states| == |ops| + 1 && states[0] == old(world.Now()) && states[|ops|] == world.Now()
    ensures forall i | 0 <= i < |ops| :: Did(world.Kinds(), states[i], ops[i], states[i + 1])
    ensures forall o :: L.LocksOf(world.ledger.locks, o)
                     == L.LocksOf(world.outside, o) + ListSlots(world.Items(), o) + DictSlots(world.Entries(), o)
    ensures forall l | l in world.lists && old(l.notify) ::
              old(l.events) <= l.events && B.Replay(old(l.items), l.events[|old(l.events)|..]) == l.items
  {
    hide ListSlots, DictSlots, L.Covers, Did;
    states := [world.Now()];
    forall j | 0 <= j < |world.lists| ensures world.lists[j].Follows(world.lists[j].items, world.lists[j].events) {
      world.lists[j].FollowsItself();
    }
    for i := 0 to |ops|
      invariant world.Valid()
      invariant |states| == i + 1 && states[0] == old(world.Now()) && states[i] == world.Now()
      invariant forall k | 0 <= k < i :: Did(world.Kinds(), states[k], ops[k], states[k + 1])
      invariant forall j | 0 <= j < |world.lists| ::
                  world.lists[j].notify == old(world.lists[j].notify)
                  && world.lists[j].Follows(old(world.lists[j].items), old(world.lists[j].events))
    {
      label before:
      world.Perform(ops[i]);
      states := states + [world.Now()];
      forall j | 0 <= j < |world.lists|
        ensures world.lists[j].Follows(old(world.lists[j].items), old(world.lists[j].events))
      {
        world.lists[j].FollowsTrans(old(world.lists[j].items), old(world.lists[j].events),
                                    old@before(world.lists[j].items), old@before(world.lists[j].events));
      }
    }
  }

  lemma {:induction false} NoSlots(ss: seq<seq<Obj>>, es: seq<D.Entries>, o: Obj)
    requires (forall i | 0 <= i < |ss| :: ss[i] == []) && forall i | 0 <= i < |es| :: es[i] == map[]
    ensures ListSlots(ss, o) == 0 && DictSlots(es, o) == 0
    decreases |ss| + |es|
  {
    if ss != [] { NoSlots(ss[1..], es, o); }
    if es != [] {
      NoSlots(ss, es[1..], o);
      assert D.Holders(es[0], o) == {};
    }
  }
}

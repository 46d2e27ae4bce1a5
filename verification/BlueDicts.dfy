/**
 The dictionary of Blue objects: entries that hold locks, and a cache of iterators through which
 keys are found by index. Every operation that changes the entries drops the cache, except `insert`.
 Destructors do not change the dictionary.
 */
module BlueDicts {

  import opened Basics
  import L = Ledgers

  type Obj = L.Obj

  type Entries = map<string, Obj>

  /** The entries that hold `o`. */
  ghost function Holders(entries: Entries, o: Obj): set<string> {
    set k | k in entries && entries[k] == o
  }

  ghost function Slots(entries: Entries, o: Obj): nat { |Holders(entries, o)| }

  ghost predicate Covers(locks: map<Obj, int>, entries: Entries) {
    L.Alive(locks) && forall o :: L.LocksOf(locks, o) >= Slots(entries, o)
  }

  /** Locks changed exactly as the number of entries that hold each object. */
  ghost predicate Balanced(before: map<Obj, int>, was: Entries, after: map<Obj, int>, entries: Entries) {
    forall o :: L.LocksOf(after, o) - L.LocksOf(before, o) == Slots(entries, o) - Slots(was, o)
  }

  lemma BalancedTrans(l0: map<Obj, int>, e0: Entries, l1: map<Obj, int>, e1: Entries, l2: map<Obj, int>, e2: Entries)
    requires Balanced(l0, e0, l1, e1) && Balanced(l1, e1, l2, e2)
    ensures Balanced(l0, e0, l2, e2)
  {
    hide Slots;
  }

  lemma BalancedCovers(l0: map<Obj, int>, e0: Entries, l1: map<Obj, int>, e1: Entries)
    requires Covers(l0, e0) && Balanced(l0, e0, l1, e1) && L.Alive(l1)
    ensures Covers(l1, e1)
  {
    hide Slots;
    forall o ensures L.LocksOf(l1, o) >= Slots(e1, o) {
      assert L.LocksOf(l0, o) >= Slots(e0, o);
    }
  }

  lemma EntryAlive(locks: map<Obj, int>, entries: Entries, k: string)
    requires Covers(locks, entries) && k in entries
    ensures entries[k] in locks && Slots(entries, entries[k]) > 0
  {
    assert k in Holders(entries, entries[k]);
    assert Slots(entries, entries[k]) > 0;
  }

  lemma EntryRemoved(entries: Entries, k: string, o: Obj)
    requires k in entries
    ensures Slots(entries - {k}, o) == Slots(entries, o) - if entries[k] == o then 1 else 0
  {
    if entries[k] == o {
      assert Holders(entries, o) == Holders(entries - {k}, o) + {k};
    } else {
      assert Holders(entries, o) == Holders(entries - {k}, o);
    }
  }

  lemma EntryAdded(entries: Entries, k: string, v: Obj, o: Obj)
    requires k !in entries
    ensures Slots(entries[k := v], o) == Slots(entries, o) + if v == o then 1 else 0
  {
    assert entries[k := v] - {k} == entries;
    EntryRemoved(entries[k := v], k, o);
  }

  lemma {:induction false} SomeMissing<T>(s: seq<T>, x: set<T>)
    requires NoDup(s) && forall t | t in s :: t in x
    ensures |s| <= |x|
    ensures |s| == |x| <==> forall t | t in x :: t in s
  {
    if s != [] {
      var n := |s| - 1;
      assert s == s[..n] + [s[n]];
      SomeMissing(s[..n], x - {s[n]});
    } else if x != {} {
      var t :| t in x;
    }
  }

  class BlueDict {
    const ledger: L.Ledger
    var entries: Entries
    var iterators: seq<string>
    var iteratorsValid: bool

    /** A valid cache lists keys of the dictionary, each once; an invalid one is empty. */
    ghost predicate Listed()
      reads this
    {
      if iteratorsValid then NoDup(iterators) && forall k | k in iterators :: k in entries else iterators == []
    }

    /** A valid cache lists every key. */
    ghost predicate CacheOk()
      reads this
    {
      Listed() && (iteratorsValid ==> forall k | k in entries :: k in iterators)
    }

    ghost predicate Valid()
      reads this, ledger
    {
      Covers(ledger.locks, entries) && Listed()
    }

    /** The cache is complete exactly when it is as long as the dictionary. */
    lemma CompleteBySize()
      requires Listed() && iteratorsValid
      ensures |iterators| <= |entries| && (CacheOk() <==> |iterators| == |entries|)
    {
      SomeMissing(iterators, entries.Keys);
    }

    /** Looking up by key and counting through the cached keys find the same entries, each once. */
    lemma KeysAreSubscripts()
      requires CacheOk() && iteratorsValid
      ensures |iterators| == |entries|
      ensures forall k :: Subscript(k).Some? <==> exists i :: 0 <= i < |iterators| && iterators[i] == k
      ensures forall i, j | 0 <= i < j < |iterators| :: iterators[i] != iterators[j]
    {
      CompleteBySize();
      forall k ensures Subscript(k).Some? <==> exists i :: 0 <= i < |iterators| && iterators[i] == k {
        assert k in entries <==> k in iterators;
      }
    }

    constructor (ledger: L.Ledger)
      requires L.Alive(ledger.locks)
      ensures Valid() && CacheOk() && entries == map[] && this.ledger == ledger
    {
      this.ledger := ledger;
      entries, iterators, iteratorsValid := map[], [], false;
    }

    method Clear()
      requires Valid()
      modifies this, ledger
      ensures Valid() && CacheOk() && entries == map[]
      ensures Balanced(old(ledger.locks), old(entries), ledger.locks, entries)
    {
      hide Covers, Balanced;
      ghost var rest, was, locks := entries, entries, ledger.locks;
      Same(ledger.locks, entries);
      var todo := entries.Keys;
      while todo != {}
        invariant todo <= entries.Keys && entries == was && rest == Restricted(was, todo)
        invariant Covers(ledger.locks, rest) && Balanced(locks, was, ledger.locks, rest)
      {
        var k :| k in todo;
        ghost var mid := ledger.locks;
        EntryAlive(mid, rest, k);
        CoversAlive(mid, rest);
        ledger.Unlock(entries[k]);
        EntryReleased(mid, rest, ledger.locks, k);
        BalancedTrans(locks, was, mid, rest, ledger.locks, rest - {k});
        rest := rest - {k};
        todo := todo - {k};
      }
      entries := map[];
      iterators := [];
      iteratorsValid := false;
    }

    function Subscript(key: string): (r: Option<Obj>)
      reads this
      ensures r.Some? <==> key in entries
    {
      if key in entries then Some(entries[key]) else None
    }

    /**
     Sets or, without a value, deletes an entry. The old value is released before the new one is
     locked, so a value with no other lock does not survive being assigned to its own entry; and an
     entry that is not there cannot be erased. In these two cases the program is undefined, and in no
     other as long as destroying the old value releases no lock that the ledger counts: a new value that
     only the old one holds would be destroyed with it.
     */
    method AssignSubscript(key: string, value: Option<Obj>) returns (defined: bool)
      requires Valid() && (value.Some? ==> value.value in ledger.locks)
      modifies this, ledger
      ensures defined <==> if value.None? then key in old(entries)
                           else !(key in old(entries) && old(entries)[key] == value.value
                                  && L.LocksOf(old(ledger.locks), value.value) == 1)
      ensures defined ==> Valid() && CacheOk()
      ensures defined ==> entries == if value.Some? then old(entries)[key := value.value] else old(entries) - {key}
      ensures defined ==> Balanced(old(ledger.locks), old(entries), ledger.locks, entries)
      ensures !defined ==> entries == old(entries) && (value.Some? ==> value.value !in ledger.locks)
    {
      hide Covers, Balanced, Slots;
      ghost var was, locks := entries, ledger.locks;
      Same(locks, was);
      CoversAlive(locks, was);
      if value.Some? { SurvivesRelease(locks, was, key, value.value); }
      if iteratorsValid {
        iterators := [];
        iteratorsValid := false;
      }
      if key in entries {
        EntryAlive(locks, was, key);
        ledger.Unlock(entries[key]);
        EntryReleased(locks, was, ledger.locks, key);
      } else {
        assert was - {key} == was;
      }
      ghost var mid := ledger.locks;
      if value.Some? {
        if value.value !in ledger.locks {
          return false;
        }
        ledger.Lock(value.value);
        EntryLocked(mid, was - {key}, ledger.locks, key, value.value);
        BalancedTrans(locks, was, mid, was - {key}, ledger.locks, (was - {key})[key := value.value]);
        assert (was - {key})[key := value.value] == was[key := value.value];
        entries := entries[key := value.value];
      } else {
        if key !in entries {
          return false;
        }
        entries := entries - {key};
      }
      return true;
    }

    /**
     Adds an entry that takes over one lock of its caller. An entry that is there already stays as it
     is, and the caller keeps the lock. The cache is left alone: it stays complete exactly when it
     is not in use or the key was not new.
     */
    method Insert(key: string, value: Obj) returns (added: bool)
      requires Valid() && L.LocksOf(ledger.locks, value) > Slots(entries, value)
      modifies `entries
      ensures Valid() && added == (key !in old(entries))
      ensures entries == if added then old(entries)[key := value] else old(entries)
      ensures CacheOk() <==> old(CacheOk()) && (!iteratorsValid || key in old(entries))
    {
      added := key !in entries;
      if added {
        forall o ensures Slots(entries[key := value], o) == Slots(entries, o) + if value == o then 1 else 0 {
          EntryAdded(entries, key, value, o);
        }
        entries := entries[key := value];
      }
    }

    /** The key at an index, in an order that lasts until the cache is dropped. */
    method GetKey(index: nat) returns (key: Option<string>)
      requires Listed()
      modifies `iterators, `iteratorsValid
      ensures Listed() && iteratorsValid && (CacheOk() <==> old(CacheOk()))
      ensures old(iteratorsValid) ==> iterators == old(iterators)
      ensures key == if index < |iterators| then Some(iterators[index]) else None
      ensures |iterators| <= |entries| && (old(CacheOk()) <==> |iterators| == |entries|)
    {
      if !iteratorsValid {
        assert iterators == [];
        var todo := entries.Keys;
        while todo != {}
          invariant todo <= entries.Keys && NoDup(iterators)
          invariant forall k :: k in iterators <==> k in entries && k !in todo
          decreases |todo|
        {
          var k :| k in todo;
          iterators := iterators + [k];
          todo := todo - {k};
        }
        iteratorsValid := true;
      }
      CompleteBySize();
      if index >= |iterators| {
        return None;
      }
      return Some(iterators[index]);
    }

    /**
     Every key with its value, each once; nothing when there is no key at some index below the
     length, which the program asserts never happens. It happens exactly when the cache misses a key.
     */
    method PyItems() returns (items: Option<seq<(string, Obj)>>)
      requires Listed()
      modifies `iterators, `iteratorsValid
      ensures Listed() && (CacheOk() <==> old(CacheOk()))
      ensures items.Some? <==> old(CacheOk())
      ensures items.Some? ==> ItemsOf(items.value)
    {
      var len := |entries|;
      var list := [];
      if iteratorsValid { CompleteBySize(); }
      for i := 0 to len
        invariant Listed() && |list| == i && (CacheOk() <==> old(CacheOk()))
        invariant i > 0 ==> iteratorsValid && i <= |iterators|
        invariant i > 0 ==> Paired(list)
      {
        var key := GetKey(i);
        CompleteBySize();
        if key.None? {
          return None;
        }
        assert iterators[i] in iterators;
        var p := Subscript(key.value);
        assert p.Some?;
        list := list + [(key.value, p.value)];
      }
      if len == 0 {
        assert entries.Keys == {};
        assert forall k :: k !in entries.Keys;
      } else {
        CompleteBySize();
        PairedIsAll(list);
      }
      return Some(list);
    }

    /**
     What a search does with a dictionary: for each index below the length, the key and the value of that
     key. Without a key the program is undefined; that is so exactly when the cache misses a key.
     Otherwise it gets every entry's value, in the order of some keys that are all the keys.
     */
    method EnumerateItems() returns (items: Option<seq<Obj>>, ghost keys: seq<string>)
      requires Listed()
      modifies `iterators, `iteratorsValid
      ensures Listed() && (CacheOk() <==> old(CacheOk()))
      ensures items.Some? <==> old(CacheOk())
      ensures items.Some? ==>
                && NoDup(keys) && (forall k :: k in keys <==> k in entries) && |items.value| == |keys| == |entries|
                && forall i | 0 <= i < |keys| :: keys[i] in entries && items.value[i] == entries[keys[i]]
    {
      var n := |entries|;
      var values := [];
      keys := [];
      if iteratorsValid { CompleteBySize(); }
      for i := 0 to n
        invariant Listed() && |values| == i && (CacheOk() <==> old(CacheOk()))
        invariant i > 0 ==> iteratorsValid && i <= |iterators|
        invariant i > 0 ==> forall j | 0 <= j < i :: iterators[j] in entries && values[j] == entries[iterators[j]]
      {
        var key := GetKey(i);
        CompleteBySize();
        if key.None? {
          return None, [];
        }
        assert iterators[i] in iterators;
        var item := Subscript(key.value);
        if item.Some? {
          values := values + [item.value];
        }
      }
      if n == 0 {
        assert entries.Keys == {};
        assert forall k :: k !in entries.Keys;
      } else {
        CompleteBySize();
        keys := iterators;
      }
      return Some(values), keys;
    }

    /** The first cached keys with their values. */
    ghost predicate Paired(items: seq<(string, Obj)>)
      reads this
    {
      && |items| <= |iterators|
      && forall j | 0 <= j < |items| :: iterators[j] in entries && items[j] == (iterators[j], entries[iterators[j]])
    }

    ghost predicate ItemsOf(items: seq<(string, Obj)>)
      reads this
    {
      && |items| == |entries|
      && (forall i | 0 <= i < |items| :: items[i].0 in entries && items[i].1 == entries[items[i].0])
      && (forall k | k in entries :: exists i :: 0 <= i < |items| && items[i] == (k, entries[k]))
      && (forall i, j | 0 <= i < j < |items| :: items[i].0 != items[j].0)
    }

    lemma PairedIsAll(items: seq<(string, Obj)>)
      requires CacheOk() && iteratorsValid && Paired(items) && |items| == |iterators| == |entries|
      ensures ItemsOf(items)
    {
      forall k | k in entries ensures exists i :: 0 <= i < |items| && items[i] == (k, entries[k]) {
        assert k in iterators;
        var i :| 0 <= i < |iterators| && iterators[i] == k;
        assert items[i] == (k, entries[k]);
      }
    }
  }

  /** A key inserted after the keys were counted through is not found by index: the last index has none. */
  method KeyAfterInsert(dict: BlueDict, key: string, value: Obj) returns (last: Option<string>)
    requires dict.Valid() && L.LocksOf(dict.ledger.locks, value) > Slots(dict.entries, value)
    modifies dict
    ensures dict.Valid() && dict.entries == if key in old(dict.entries) then old(dict.entries)
                                            else old(dict.entries)[key := value]
    ensures last.None? <==> !(old(dict.CacheOk()) && key in old(dict.entries))
  {
    var _ := dict.GetKey(0);
    var _ := dict.Insert(key, value);
    assert key in dict.entries.Keys;
    last := dict.GetKey(|dict.entries| - 1);
    dict.CompleteBySize();
  }

  /** Exactly when a value outlives the release of the entry it is assigned to. */
  lemma SurvivesRelease(locks: map<Obj, int>, entries: Entries, key: string, value: Obj)
    requires Covers(locks, entries) && value in locks
    ensures key in entries ==> entries[key] in locks
    ensures (value in if key in entries then L.Unlocked(locks, entries[key]) else locks)
            <==> !(key in entries && entries[key] == value && locks[value] == 1)
  {
    if key in entries { EntryAlive(locks, entries, key); }
  }

  ghost function Restricted(entries: Entries, keys: set<string>): Entries {
    map k | k in entries && k in keys :: entries[k]
  }

  lemma Same(locks: map<Obj, int>, entries: Entries)
    ensures Balanced(locks, entries, locks, entries)
    ensures Restricted(entries, entries.Keys) == entries
  {
  }

  lemma CoversAlive(locks: map<Obj, int>, entries: Entries)
    requires Covers(locks, entries)
    ensures L.Alive(locks)
  {
  }

  lemma EntryReleased(before: map<Obj, int>, was: Entries, after: map<Obj, int>, k: string)
    requires Covers(before, was) && L.Alive(after) && k in was
    requires forall q :: L.LocksOf(after, q) == L.LocksOf(before, q) - if q == was[k] then 1 else 0
    ensures Balanced(before, was, after, was - {k}) && Covers(after, was - {k})
  {
    hide Slots;
    forall o ensures L.LocksOf(after, o) - L.LocksOf(before, o) == Slots(was - {k}, o) - Slots(was, o) {
      EntryRemoved(was, k, o);
    }
    BalancedCovers(before, was, after, was - {k});
  }

  lemma EntryLocked(before: map<Obj, int>, was: Entries, after: map<Obj, int>, k: string, v: Obj)
    requires Covers(before, was) && L.Alive(after) && k !in was
    requires forall q :: L.LocksOf(after, q) == L.LocksOf(before, q) + if q == v then 1 else 0
    ensures Balanced(before, was, after, was[k := v]) && Covers(after, was[k := v])
  {
    hide Slots;
    forall o ensures L.LocksOf(after, o) - L.LocksOf(before, o) == Slots(was[k := v], o) - Slots(was, o) {
      EntryAdded(was, k, v, o);
    }
    BalancedCovers(before, was, after, was[k := v]);
  }
}

/** The iterator over the persistent members of a class and its parents. */
module MemberIterator {

  import opened Basics
  import opened ObjectModel
  import opened Children
  import opened Chains
  import opened GraphEdges
  import Layout

  predicate Interesting(m: VarEntry, persistOnly: bool, read: bool) {
    !persistOnly || m.persist || (read && m.rpersist)
  }

  function Wanted(fs: seq<Field>, persistOnly: bool, read: bool): seq<Field> {
    if fs == [] then []
    else if Interesting(fs[0].entry, persistOnly, read) then [fs[0]] + Wanted(fs[1..], persistOnly, read)
    else Wanted(fs[1..], persistOnly, read)
  }

  /** Fields are wanted one by one: what comes first in the chain comes first among those wanted. */
  lemma {:induction false} WantedSplits(a: seq<Field>, b: seq<Field>, p: bool, r: bool)
    ensures Wanted(a + b, p, r) == Wanted(a, p, r) + Wanted(b, p, r)
  {
    if a == [] {
      assert a + b == b;
    } else {
      assert (a + b)[1..] == a[1..] + b;
      WantedSplits(a[1..], b, p, r);
    }
  }

  /** Exactly the interesting fields are wanted, none more often than it is there. */
  lemma {:induction false} WantedExactly(fs: seq<Field>, p: bool, r: bool)
    ensures forall f :: f in Wanted(fs, p, r) <==> f in fs && Interesting(f.entry, p, r)
    ensures multiset(Wanted(fs, p, r)) <= multiset(fs)
  {
    if fs != [] {
      hide Interesting;
      var rest := fs[1..];
      WantedExactly(rest, p, r);
      assert fs == [fs[0]] + rest;
      assert Wanted(fs, p, r) == (if Interesting(fs[0].entry, p, r) then [fs[0]] else []) + Wanted(rest, p, r);
    }
  }

  /** The fields of the rest of a table, from `index` on, and of all parents. */
  function From(cls: ClassInfo, index: nat, offs: int): seq<Field>
    requires index <= |cls.members|
  {
    TableFields(cls.members[index..], offs) +
    (if cls.parent.Some? then Fields(cls.parent.value, offs + cls.offsetToParent) else [])
  }

  lemma FromStart(cls: ClassInfo, offs: int)
    ensures From(cls, 0, offs) == Fields(cls, offs)
  {
    assert cls.members[0..] == cls.members;
  }

  lemma FromNext(cls: ClassInfo, index: nat, offs: int)
    requires index < |cls.members|
    ensures From(cls, index, offs) == [Field(cls.members[index], offs)] + From(cls, index + 1, offs)
  {
    assert TableFields(cls.members[index..], offs)
        == [Field(cls.members[index], offs)] + TableFields(cls.members[index + 1..], offs);
  }

  lemma WantedNothing(p: bool, r: bool)
    ensures Wanted([], p, r) == []
  {
  }

  lemma WantedSkips(cls: ClassInfo, index: nat, offs: int, p: bool, r: bool)
    requires index < |cls.members| && !Interesting(cls.members[index], p, r)
    ensures Wanted(From(cls, index, offs), p, r) == Wanted(From(cls, index + 1, offs), p, r)
  {
    hide From;
    FromNext(cls, index, offs);
    var rest := From(cls, index + 1, offs);
    assert ([Field(cls.members[index], offs)] + rest)[1..] == rest;
  }

  class BlueMemberIterator {
    const persistOnly: bool
    const read: bool
    var eof: bool
    var typ: Option<ClassInfo>
    var offs: int
    var index: nat

    /** Between calls the iterator stands on an entry that is wanted, or at the end. */
    ghost predicate Valid()
      reads this
    {
      !eof ==> typ.Some? && index < |typ.value.members| && Interesting(typ.value.members[index], persistOnly, read)
    }

    ghost function All(): seq<Field>
      requires !eof ==> typ.Some? && index <= |typ.value.members|
      reads this
    {
      if eof then [] else From(typ.value, index, offs)
    }

    /** What is still to come, the current entry included. */
    ghost function Rest(): seq<Field>
      requires !eof ==> typ.Some? && index <= |typ.value.members|
      reads this
    {
      Wanted(All(), persistOnly, read)
    }

    function Current(): Field
      requires Valid() && !eof
      reads this
    {
      Field(typ.value.members[index], offs)
    }

    lemma CurrentFirst()
      requires Valid()
      ensures if eof then Rest() == [] else Rest() != [] && Rest()[0] == Current()
    {
      if !eof { FromNext(typ.value, index, offs); }
    }

    constructor (cls: Option<ClassInfo>)
      ensures Valid() && persistOnly && !read
      ensures Rest() == if cls.Some? then Wanted(Fields(cls.value, 0), true, false) else []
    {
      persistOnly := true;
      read := false;
      typ := cls;
      eof := cls.None?;
      offs := 0;
      index := 0;
      new;
      if cls.Some? {
        var _ := Reset();
      }
    }

    /** To the first wanted entry of the class that the iterator has got to, at offset 0. */
    method Reset() returns (ok: bool)
      requires typ.Some?
      modifies this
      ensures Valid() && (ok <==> !eof)
      ensures Rest() == Wanted(Fields(old(typ).value, 0), persistOnly, read)
    {
      hide Fields, From, Wanted;
      offs := 0;
      index := 0;
      eof := false;
      FromStart(typ.value, 0);
      WantedNothing(persistOnly, read);
      if index == |typ.value.members| {
        var more := NextParent();
        if !more {
          return false;
        }
      }
      if !Interesting(typ.value.members[index], persistOnly, read) {
        WantedSkips(typ.value, index, offs, persistOnly, read);
        ok := Advance();
        return;
      }
      return true;
    }

    method Next(n: nat) returns (ok: bool)
      requires Valid()
      modifies this
      ensures Valid()
      ensures Rest() == old(Rest())[if n < |old(Rest())| then n else |old(Rest())|..]
      ensures ok <==> n < |old(Rest())|
      ensures ok ==> !eof
    {
      hide Wanted, From;
      CurrentFirst();
      if eof {
        return false;
      }
      ghost var rest := Rest();
      for i := 0 to n
        invariant Valid() && !eof && i < |rest| && Rest() == rest[i..]
      {
        CurrentFirst();
        NextDrops();
        var more := Advance();
        CurrentFirst();
        if !more {
          return false;
        }
      }
      return true;
    }

    lemma NextDrops()
      requires Valid() && !eof
      ensures Rest()[1..] == Wanted(From(typ.value, index + 1, offs), persistOnly, read)
    {
      FromNext(typ.value, index, offs);
    }

    /** To the next wanted entry. */
    method Advance() returns (ok: bool)
      requires !eof && typ.Some? && index < |typ.value.members|
      modifies this
      ensures Valid() && (ok <==> !eof)
      ensures Rest() == Wanted(old(From(typ.value, index + 1, offs)), persistOnly, read)
    {
      hide From, Fields, Wanted;
      WantedNothing(persistOnly, read);
      ghost var wanted := Wanted(From(typ.value, index + 1, offs), persistOnly, read);
      var more := Step();
      while more && !Interesting(typ.value.members[index], persistOnly, read)
        invariant more <==> !eof
        invariant typ.Some? && (!eof ==> index < |typ.value.members|)
        invariant Rest() == wanted
        decreases more, typ.value, |typ.value.members| - index
      {
        WantedSkips(typ.value, index, offs, persistOnly, read);
        more := Step();
      }
      return more;
    }

    /** One entry on, past the end of a table into the next one that is not empty. */
    method Step() returns (ok: bool)
      requires !eof && typ.Some? && index < |typ.value.members|
      modifies this
      ensures (ok <==> !eof) && typ.Some?
      ensures !eof ==> index < |typ.value.members|
      ensures All() == old(From(typ.value, index + 1, offs))
      ensures eof || typ.value < old(typ).value || (typ == old(typ) && index == old(index) + 1)
    {
      index := index + 1;
      if index == |typ.value.members| {
        ok := NextParent();
        return;
      }
      return true;
    }

    method NextParent() returns (ok: bool)
      requires !eof && typ.Some? && index == |typ.value.members|
      modifies this
      ensures (ok <==> !eof) && typ.Some?
      ensures !eof ==> index < |typ.value.members|
      ensures All() == old(From(typ.value, index, offs))
      ensures eof || typ.value < old(typ).value
    {
      hide Fields;
      ghost var cls := typ.value;
      ghost var rest := From(typ.value, index, offs);
      ghost var first := true;
      while true
        invariant !eof && typ.Some? && index == |typ.value.members|
        invariant From(typ.value, index, offs) == rest
        invariant if first then typ.value == cls else typ.value < cls
        decreases typ
      {
        var parentType := typ.value.parent;
        if parentType.None? {
          eof := true;
          return false;
        }
        FromStart(parentType.value, offs + typ.value.offsetToParent);
        offs := offs + typ.value.offsetToParent;
        typ := parentType;
        index := 0;
        first := false;
        if 0 < |typ.value.members| {
          return true;
        }
      }
    }
  }

  // ---------- what is wanted, without the loops ----------

  /** A place gives its field if that is persistent. */
  ghost function GivingPersistent(ls: seq<Link>): (Place, Field) -> bool {
    (p, f) => GivesField(ls, p, f) && f.entry.persist
  }

  lemma {:induction false} WantedInOrder(ls: seq<Link>, k: nat, n: nat) returns (ps: seq<Place>)
    requires k < |ls| && n <= |ls[k].cls.members| && IsChain(ls[0].cls, ls[0].at, ls)
    ensures Enumerates(GivingPersistent(ls), Place(k, false, n), Place(|ls|, false, 0),
                       Wanted(From(ls[k].cls, n, ls[k].at), true, false), ps)
    decreases |ls| - k, |ls[k].cls.members| - n
  {
    hide Enumerates, Fields, Wanted, From;
    var g := GivingPersistent(ls);
    var l := ls[k];
    FromBehind(ls, k);
    var here, end := Place(k, false, n), Place(|ls|, false, 0);
    if n < |l.cls.members| {
      var f := Field(l.cls.members[n], l.at);
      var rest := WantedInOrder(ls, k, n + 1);
      FromNext(l.cls, n, l.at);
      WantedFirst(f, From(l.cls, n + 1, l.at));
      var one := if f.entry.persist then [f] else [];
      EnumeratesOne(g, here, one);
      ps := (if one == [] then [] else [here]) + rest;
      EnumeratesTwo(g, here, Next(here), end, one, if one == [] then [] else [here],
                    Wanted(From(l.cls, n + 1, l.at), true, false), rest);
    } else if k + 1 < |ls| {
      var next := Place(k + 1, false, 0);
      var rest := WantedInOrder(ls, k + 1, 0);
      EnumeratesNone(g, here, next);
      EnumeratesTwo(g, here, next, end, [], [], Wanted(From(l.cls, n, l.at), true, false), rest);
      ps := [] + rest;
      assert [] + Wanted(From(l.cls, n, l.at), true, false) == Wanted(From(l.cls, n, l.at), true, false);
    } else {
      ps := [];
      WantedNothing(true, false);
      EnumeratesNone(g, here, end);
    }
  }

  /** Behind the members of one link come those of the next. */
  lemma FromBehind(ls: seq<Link>, k: nat)
    requires k < |ls| && IsChain(ls[0].cls, ls[0].at, ls)
    ensures var l := ls[k];
            From(l.cls, |l.cls.members|, l.at) == if k + 1 < |ls| then From(ls[k + 1].cls, 0, ls[k + 1].at) else []
  {
    hide Fields, TableFields;
    var l := ls[k];
    assert l.cls.members[|l.cls.members|..] == [];
    if k + 1 < |ls| { FromStart(ls[k + 1].cls, ls[k + 1].at); }
  }

  lemma WantedFirst(f: Field, rest: seq<Field>)
    ensures Wanted([f] + rest, true, false) == (if f.entry.persist then [f] else []) + Wanted(rest, true, false)
  {
    assert ([f] + rest)[1..] == rest;
  }

  /** Exactly the persistent entries of the tables of the chain, in order, each once for its place. */
  ghost predicate PersistentInOrder(cls: ClassInfo, fs: seq<Field>) {
    exists ps: seq<Place> ::
      && |ps| == |fs|
      && (forall i | 0 <= i < |ps| :: GivesField(Links(cls, 0), ps[i], fs[i]) && fs[i].entry.persist)
      && (forall i, j | 0 <= i < j < |ps| :: Before(ps[i], ps[j]))
      && (forall p, f | GivesField(Links(cls, 0), p, f) && f.entry.persist :: p in ps)
  }

  lemma WantedIsPersistent(cls: ClassInfo)
    ensures PersistentInOrder(cls, Wanted(Fields(cls, 0), true, false))
  {
    hide Wanted, From, Fields;
    var ls := Links(cls, 0);
    FromStart(cls, 0);
    var ps := WantedInOrder(ls, 0, 0);
    var g := GivingPersistent(ls);
    forall p, f | GivesField(ls, p, f) && f.entry.persist ensures p in ps {
      assert g(p, f) && Within(Place(0, false, 0), p, Place(|ls|, false, 0));
    }
    forall i | 0 <= i < |ps|
      ensures GivesField(ls, ps[i], Wanted(Fields(cls, 0), true, false)[i])
      ensures Wanted(Fields(cls, 0), true, false)[i].entry.persist
    {
      assert g(ps[i], Wanted(Fields(cls, 0), true, false)[i]);
    }
  }

  /** Iterating from start to end visits the persistent entries of the whole chain, each at its offset. */
  method Collect(cls: ClassInfo) returns (fs: seq<Field>)
    ensures fs == Wanted(Fields(cls, 0), true, false)
    ensures PersistentInOrder(cls, fs)
  {
    hide Wanted, Fields, BlueMemberIterator.Rest, PersistentInOrder;
    WantedIsPersistent(cls);
    var it := new BlueMemberIterator(Some(cls));
    ghost var all := Wanted(Fields(cls, 0), true, false);
    fs := [];
    while !it.eof
      invariant it.Valid() && fresh(it) && fs + it.Rest() == all
      decreases |it.Rest()|
    {
      it.CurrentFirst();
      fs := fs + [it.Current()];
      ghost var rest := it.Rest();
      var _ := it.Next(1);
      assert rest == [rest[0]] + rest[1..];
    }
    it.CurrentFirst();
  }

  // ---------- the copier sees the same entries ----------

  function FieldLeaves(fs: seq<Field>): seq<Layout.Leaf> {
    if fs == [] then [] else Layout.EntryLeaves(fs[0].entry, fs[0].at) + FieldLeaves(fs[1..])
  }

  lemma {:induction false} FieldLeavesAdd(a: seq<Field>, b: seq<Field>)
    ensures FieldLeaves(a + b) == FieldLeaves(a) + FieldLeaves(b)
  {
    if a == [] {
      assert a + b == b;
    } else {
      assert (a + b)[1..] == a[1..] + b;
      FieldLeavesAdd(a[1..], b);
    }
  }

  lemma {:induction false} TableSame(ms: seq<VarEntry>, at: int)
    ensures Layout.TableLeaves(ms, at) == FieldLeaves(TableFields(ms, at))
  {
    if ms != [] {
      TableSame(ms[1..], at);
      assert TableFields(ms, at)[1..] == TableFields(ms[1..], at);
    }
  }

  lemma {:induction false} ChainSame(cls: ClassInfo, at: int)
    ensures Layout.ChainLeaves(cls, at) == FieldLeaves(Fields(cls, at))
  {
    hide TableFields, FieldLeaves, Layout.TableLeaves;
    TableSame(cls.members, at);
    var table := TableFields(cls.members, at);
    if cls.parent.Some? {
      ChainSame(cls.parent.value, at + cls.offsetToParent);
      FieldLeavesAdd(table, Fields(cls.parent.value, at + cls.offsetToParent));
    } else {
      assert Fields(cls, at) == table + [] == table;
    }
  }

  lemma {:induction false} OnlyPersistent(fs: seq<Field>)
    ensures FieldLeaves(fs) == FieldLeaves(Wanted(fs, true, false))
  {
    if fs != [] {
      OnlyPersistent(fs[1..]);
      var rest := Wanted(fs[1..], true, false);
      if fs[0].entry.persist {
        assert Wanted(fs, true, false)[0] == fs[0] && Wanted(fs, true, false)[1..] == rest;
      } else {
        assert Layout.EntryLeaves(fs[0].entry, fs[0].at) == [];
        assert FieldLeaves(fs) == [] + FieldLeaves(fs[1..]);
      }
    }
  }

  /** The cells that a copy of an object considers are those of the entries the iterator visits. */
  lemma CopierSeesTheSame(cls: ClassInfo)
    ensures Layout.ChainLeaves(cls, 0) == FieldLeaves(Wanted(Fields(cls, 0), true, false))
  {
    ChainSame(cls, 0);
    OnlyPersistent(Fields(cls, 0));
  }
}

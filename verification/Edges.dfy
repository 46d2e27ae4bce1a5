/** What the edges of the object graph are, without the loops that list them. */
module GraphEdges {
  import opened Basics
  import opened ObjectModel
  import opened Children
  import opened Chains

  /**
   The edge that a place in the class chain of an object gives: a member that is an embedded object or
   a pointer that is not null, or an item of a container that is not null.
   */
  ghost predicate Gives(h: Heap, b: nat, ls: seq<Link>, persistOnly: bool, p: Place, e: Edge)
    requires b in h
  {
    p.link < |ls| &&
    if p.item then GivesItem(h[b], ls[p.link], p.index, e)
    else p.index < |ls[p.link].cls.members| &&
         GivesMember(h, b, ls[p.link].cls.members[p.index], ls[p.link].at, persistOnly, e)
  }

  ghost predicate GivesMember(h: Heap, b: nat, m: VarEntry, at: int, persistOnly: bool, e: Edge)
    requires b in h
  {
    var addr := at + m.offset;
    && (persistOnly ==> m.persist)
    && match m.varType
       case Plain => false
       case Root(_) => e == Edge(At(b, addr), Attribute(m.name, addr, false))
       case RootPtr =>
         && addr in h[b].ptrs && h[b].ptrs[addr] != Null
         && e == Edge(h[b].ptrs[addr], Attribute(m.name, addr, true))
  }

  ghost predicate GivesItem(b: Block, l: Link, i: nat, e: Edge) {
    && l.at in b.items && i < |b.items[l.at]| && b.items[l.at][i] != Null
    && match l.cls.container
       case NoContainer => false
       case ListContainer => e == Edge(b.items[l.at][i], ListItem(l.at, i))
       case DictContainer => e == Edge(b.items[l.at][i], DictItem(l.at, i))
  }

  ghost function Giving(h: Heap, b: nat, ls: seq<Link>, persistOnly: bool): (Place, Edge) -> bool
    requires b in h
  {
    (p, e) => Gives(h, b, ls, persistOnly, p, e)
  }

  lemma {:induction false} TableInOrder(h: Heap, b: nat, ls: seq<Link>, q: bool, k: nat, n: nat)
    returns (ps: seq<Place>)
    requires b in h && k < |ls| && n <= |ls[k].cls.members|
    ensures Enumerates(Giving(h, b, ls, q), Place(k, false, 0), Place(k, false, n),
                       TableEdges(h, b, ls[k].cls.members[..n], ls[k].at, q), ps)
  {
    hide Enumerates;
    var g := Giving(h, b, ls, q);
    var l := ls[k];
    if n == 0 {
      ps := [];
      EnumeratesNone(g, Place(k, false, 0), Place(k, false, 0));
    } else {
      var front := TableInOrder(h, b, ls, q, k, n - 1);
      var m := l.cls.members[n - 1];
      var es := EntryEdges(h, b, m, l.at, q);
      assert l.cls.members[..n][..n - 1] == l.cls.members[..n - 1];
      EnumeratesOne(g, Place(k, false, n - 1), es);
      ps := front + if es == [] then [] else [Place(k, false, n - 1)];
      EnumeratesTwo(g, Place(k, false, 0), Place(k, false, n - 1), Place(k, false, n),
                    TableEdges(h, b, l.cls.members[..n - 1], l.at, q), front, es,
                    if es == [] then [] else [Place(k, false, n - 1)]);
    }
  }

  lemma {:induction false} ItemsInOrder(h: Heap, b: nat, ls: seq<Link>, q: bool, k: nat, n: nat)
    returns (ps: seq<Place>)
    requires b in h && k < |ls| && !ls[k].cls.container.NoContainer? && ls[k].at in h[b].items
    requires n <= |h[b].items[ls[k].at]|
    ensures Enumerates(Giving(h, b, ls, q), Place(k, true, 0), Place(k, true, n),
                       ItemEdges(h[b].items[ls[k].at], n, ls[k].cls.container, ls[k].at), ps)
  {
    hide Enumerates;
    var g := Giving(h, b, ls, q);
    var l := ls[k];
    if n == 0 {
      ps := [];
      EnumeratesNone(g, Place(k, true, 0), Place(k, true, 0));
    } else {
      var front := ItemsInOrder(h, b, ls, q, k, n - 1);
      var rs := h[b].items[l.at];
      var es := if rs[n - 1].At? then [Edge(rs[n - 1], ItemVia(l.cls.container, l.at, n - 1))] else [];
      EnumeratesOne(g, Place(k, true, n - 1), es);
      ps := front + if es == [] then [] else [Place(k, true, n - 1)];
      EnumeratesTwo(g, Place(k, true, 0), Place(k, true, n - 1), Place(k, true, n),
                    ItemEdges(rs, n - 1, l.cls.container, l.at), front, es,
                    if es == [] then [] else [Place(k, true, n - 1)]);
    }
  }

  /** The edges of one link: its members, then its items, and nothing between and behind them. */
  lemma LinkInOrder(h: Heap, b: nat, ls: seq<Link>, q: bool, k: nat) returns (ps: seq<Place>)
    requires b in h && k < |ls|
    ensures Enumerates(Giving(h, b, ls, q), Place(k, false, 0), Place(k + 1, false, 0),
                       TableEdges(h, b, ls[k].cls.members, ls[k].at, q)
                       + ContainerEdges(h, b, ls[k].cls.container, ls[k].at), ps)
  {
    hide Enumerates, TableEdges;
    var g := Giving(h, b, ls, q);
    var l := ls[k];
    var first, behind, end := Place(k, false, 0), Place(k, false, |l.cls.members|), Place(k + 1, false, 0);
    assert l.cls.members[..|l.cls.members|] == l.cls.members;
    var members := TableInOrder(h, b, ls, q, k, |l.cls.members|);
    var table, items := TableEdges(h, b, l.cls.members, l.at, q), ContainerEdges(h, b, l.cls.container, l.at);
    if l.cls.container.NoContainer? || l.at !in h[b].items {
      EnumeratesNone(g, behind, end);
      EnumeratesTwo(g, first, behind, end, table, members, [], []);
      ps := members + [];
    } else {
      var n := |h[b].items[l.at]|;
      var inItems := ItemsInOrder(h, b, ls, q, k, n);
      EnumeratesNone(g, behind, Place(k, true, 0));
      EnumeratesTwo(g, first, behind, Place(k, true, 0), table, members, [], []);
      EnumeratesTwo(g, first, Place(k, true, 0), Place(k, true, n), table + [], members + [], items, inItems);
      EnumeratesNone(g, Place(k, true, n), end);
      EnumeratesTwo(g, first, Place(k, true, n), end, table + [] + items, members + [] + inItems, [], []);
      ps := members + [] + inItems + [];
      assert table + [] + items + [] == table + items;
    }
  }

  lemma {:induction false} ChainInOrder(h: Heap, b: nat, ls: seq<Link>, q: bool, k: nat) returns (ps: seq<Place>)
    requires b in h && k < |ls| && IsChain(ls[0].cls, ls[0].at, ls)
    ensures Enumerates(Giving(h, b, ls, q), Place(k, false, 0), Place(|ls|, false, 0),
                       ChainEdges(h, b, ls[k].cls, ls[k].at, q), ps)
    decreases |ls| - k
  {
    hide Enumerates, TableEdges, ContainerEdges;
    var g := Giving(h, b, ls, q);
    var own := TableEdges(h, b, ls[k].cls.members, ls[k].at, q) + ContainerEdges(h, b, ls[k].cls.container, ls[k].at);
    var first := LinkInOrder(h, b, ls, q, k);
    if k + 1 < |ls| {
      var rest := ChainInOrder(h, b, ls, q, k + 1);
      ps := first + rest;
      EnumeratesTwo(g, Place(k, false, 0), Place(k + 1, false, 0), Place(|ls|, false, 0), own, first,
                    ChainEdges(h, b, ls[k + 1].cls, ls[k + 1].at, q), rest);
    } else {
      ps := first;
      assert own + [] == own;
    }
  }

  /**
   The edges of an object are exactly what the places of its class chain give, in order, and each is
   there once for its place.
   */
  lemma EdgesInOrder(h: Heap, r: Ref, persistOnly: bool) returns (ps: seq<Place>)
    requires IsObject(h, r)
    ensures var ls := Links(ClassOf(h, r), r.off); var es := Edges(h, r, persistOnly);
            && |ps| == |es|
            && (forall i | 0 <= i < |ps| :: Gives(h, r.block, ls, persistOnly, ps[i], es[i]))
            && (forall i, j | 0 <= i < j < |ps| :: Before(ps[i], ps[j]))
            && (forall p, e | Gives(h, r.block, ls, persistOnly, p, e) :: p in ps)
  {
    hide ChainEdges;
    var ls := Links(ClassOf(h, r), r.off);
    ps := ChainInOrder(h, r.block, ls, persistOnly, 0);
    var g := Giving(h, r.block, ls, persistOnly);
    forall p, e | Gives(h, r.block, ls, persistOnly, p, e) ensures p in ps {
      assert g(p, e) && Within(Place(0, false, 0), p, Place(|ls|, false, 0));
    }
    forall i | 0 <= i < |ps| ensures Gives(h, r.block, ls, persistOnly, ps[i], Edges(h, r, persistOnly)[i]) {
      assert g(ps[i], Edges(h, r, persistOnly)[i]);
    }
  }

  /** An edge leads from an object if and only if some place of the class chain gives it. */
  lemma EdgesExactly(h: Heap, r: Ref, persistOnly: bool, e: Edge)
    requires IsObject(h, r)
    ensures e in Edges(h, r, persistOnly) <==>
            exists p :: Gives(h, r.block, Links(ClassOf(h, r), r.off), persistOnly, p, e)
  {
    hide Edges, Links;
    var ls, es := Links(ClassOf(h, r), r.off), Edges(h, r, persistOnly);
    var ps := EdgesInOrder(h, r, persistOnly);
    if e in es {
      var i :| 0 <= i < |es| && es[i] == e;
      assert Gives(h, r.block, ls, persistOnly, ps[i], e);
    }
    forall p | Gives(h, r.block, ls, persistOnly, p, e) ensures e in es {
      var i :| 0 <= i < |ps| && ps[i] == p;
      assert Gives(h, r.block, ls, persistOnly, p, es[i]);
    }
  }

  // ---------- fields and containers ----------

  /** An entry of a member table of the chain. */
  ghost predicate GivesField(ls: seq<Link>, p: Place, f: Field) {
    !p.item && p.link < |ls| && p.index < |ls[p.link].cls.members|
    && f == Field(ls[p.link].cls.members[p.index], ls[p.link].at)
  }

  lemma GivesFieldSplit(l: Link, rest: seq<Link>, f: Field)
    ensures (exists p :: GivesField([l] + rest, p, f)) <==>
            f in TableFields(l.cls.members, l.at) || exists p :: GivesField(rest, p, f)
  {
    var ls, table := [l] + rest, TableFields(l.cls.members, l.at);
    if f in table {
      var i :| 0 <= i < |table| && table[i] == f;
      assert GivesField(ls, Place(0, false, i), f);
    }
    forall p | GivesField(rest, p, f) ensures GivesField(ls, Place(p.link + 1, false, p.index), f) {
      assert ls[p.link + 1] == rest[p.link];
    }
    forall p | GivesField(ls, p, f) ensures f in table || exists q :: GivesField(rest, q, f) {
      if p.link == 0 {
        assert table[p.index] == f;
      } else {
        assert GivesField(rest, Place(p.link - 1, false, p.index), f);
      }
    }
  }

  /** The fields of a class are the entries of all its tables. */
  lemma {:induction false} FieldsExactly(cls: ClassInfo, at: int, f: Field)
    ensures f in Fields(cls, at) <==> exists p :: GivesField(Links(cls, at), p, f)
  {
    hide TableFields, Links, IsChain, GivesField;
    ChainRest(cls, at);
    var rest := if cls.parent.Some? then Links(cls.parent.value, at + cls.offsetToParent) else [];
    assert Links(cls, at) == [Link(cls, at)] + rest;
    GivesFieldSplit(Link(cls, at), rest, f);
    if cls.parent.Some? {
      FieldsExactly(cls.parent.value, at + cls.offsetToParent, f);
    } else {
      assert forall p :: !GivesField(rest, p, f) by { NoField(f); }
    }
  }

  lemma NoField(f: Field)
    ensures forall p :: !GivesField([], p, f)
  {
  }

  /** The first link of a chain with a container of this kind. */
  ghost predicate FirstOf(ls: seq<Link>, c: Container, i: nat) {
    i < |ls| && ls[i].cls.container == c && forall j | 0 <= j < i :: ls[j].cls.container != c
  }

  /** A cast to a container interface answers the place of the first one in the chain, if there is any. */
  lemma {:induction false} CastExactly(c: Container, cls: ClassInfo, at: int)
    ensures CastTo(c, cls, at).None? <==> forall l | l in Links(cls, at) :: l.cls.container != c
    ensures CastTo(c, cls, at).Some? ==>
              exists i: nat :: FirstOf(Links(cls, at), c, i) && CastTo(c, cls, at).value == Links(cls, at)[i].at
  {
    hide Links, IsChain;
    var ls := Links(cls, at);
    ChainRest(cls, at);
    if cls.container == c {
      assert FirstOf(ls, c, 0);
    } else if cls.parent.Some? {
      CastExactly(c, cls.parent.value, at + cls.offsetToParent);
      var rest := Links(cls.parent.value, at + cls.offsetToParent);
      if CastTo(c, cls, at).Some? {
        var i: nat :| FirstOf(rest, c, i) && CastTo(c, cls, at).value == rest[i].at;
        assert FirstOf(ls, c, i + 1) && ls[i + 1] == rest[i];
      }
    }
  }

  /** A chain has one first container of each kind at most, and the cast answers its place. */
  lemma FirstIsCast(h: Heap, r: Ref, c: Container)
    requires IsObject(h, r)
    ensures var ls := Links(ClassOf(h, r), r.off); var cast := CastTo(c, ClassOf(h, r), r.off);
            && (cast.Some? <==> exists j: nat :: FirstOf(ls, c, j))
            && forall j: nat | FirstOf(ls, c, j) :: cast == Some(ls[j].at)
  {
    hide Links, IsChain, CastTo;
    CastExactly(c, ClassOf(h, r), r.off);
    var ls := Links(ClassOf(h, r), r.off);
    forall j: nat | FirstOf(ls, c, j) ensures CastTo(c, ClassOf(h, r), r.off) == Some(ls[j].at) {
      assert ls[j] in ls;
      var i: nat :| FirstOf(ls, c, i) && CastTo(c, ClassOf(h, r), r.off).value == ls[i].at;
      assert i == j;
    }
  }

  lemma FirstIsOne(ls: seq<Link>, c: Container, i: nat, j: nat)
    requires FirstOf(ls, c, i) && FirstOf(ls, c, j)
    ensures i == j
  {
  }

  /** The children of an object can be enumerated if and only if no dict of its chain has more items than keys. */
  lemma {:induction false} ListedExactly(h: Heap, b: nat, cls: ClassInfo, at: int)
    requires b in h
    ensures ChainListed(h, b, cls, at) <==>
            forall l | l in Links(cls, at) && l.cls.container.DictContainer? && l.at in h[b].items ::
              |h[b].items[l.at]| <= if l.at in h[b].keys then |h[b].keys[l.at]| else 0
  {
    hide Links, IsChain;
    ChainRest(cls, at);
    if cls.parent.Some? {
      ListedExactly(h, b, cls.parent.value, at + cls.offsetToParent);
    }
  }
}

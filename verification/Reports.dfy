/** What a cycle report says, read back: its names lead along the lasso that it stands for. */
module Reports {
  import opened Basics
  import opened ObjectModel
  import opened Children
  import opened Chains
  import opened GraphEdges
  import opened Validate

  // ---------- numbers ----------

  ghost predicate IsDigit(c: char) { '0' <= c <= '9' }

  /** The number that decimal digits denote, the most significant first. */
  ghost function Number(ds: string): int {
    if ds == "" then 0 else 10 * Number(ds[..|ds| - 1]) + (ds[|ds| - 1] as int - '0' as int)
  }

  ghost predicate IsNumeral(ds: string, n: nat) {
    ds != "" && (forall c | c in ds :: IsDigit(c)) && (|ds| > 1 ==> ds[0] != '0') && Number(ds) == n
  }

  lemma DigitChar(d: nat)
    requires d < 10
    ensures IsDigit("0123456789"[d]) && "0123456789"[d] as int == '0' as int + d
  {
  }

  lemma {:induction false} DigitsDenote(n: nat)
    ensures IsNumeral(Digits(n), n) && (n > 0 ==> Digits(n)[0] != '0')
  {
    var ds := Digits(n);
    DigitChar(n % 10);
    if n >= 10 {
      DigitsDenote(n / 10);
      assert ds[..|ds| - 1] == Digits(n / 10);
    } else {
      assert ds[..0] == "" && Number("") == 0;
    }
  }

  /** Digits without a leading zero denote a number that is at least as large as its leading digits. */
  lemma {:induction false} NumeralPositive(ds: string)
    requires ds != "" && (forall c | c in ds :: IsDigit(c)) && ds[0] != '0'
    ensures Number(ds) > 0
  {
    assert ds[|ds| - 1] in ds;
    if |ds| > 1 {
      NumeralPositive(ds[..|ds| - 1]);
    } else {
      assert ds[..0] == "" && Number("") == 0;
    }
  }

  /** The last digit of a numeral, and the numeral before it. */
  lemma NumeralSplit(ds: string, n: nat)
    requires IsNumeral(ds, n)
    ensures var front, d := ds[..|ds| - 1], ds[|ds| - 1] as int - '0' as int;
            0 <= d < 10 && d == n % 10 && ds[|ds| - 1] == "0123456789"[n % 10]
            && if front == "" then n < 10 else n >= 10 && IsNumeral(front, n / 10)
  {
    var front, last := ds[..|ds| - 1], ds[|ds| - 1];
    assert last in ds && IsDigit(last);
    DigitChar(last as int - '0' as int);
    if front == "" {
      assert Number("") == 0;
    } else {
      NumeralPositive(front);
    }
  }

  /** Every number has one numeral. */
  lemma {:induction false} NumeralExactly(ds: string, n: nat)
    ensures IsNumeral(ds, n) <==> ds == Digits(n)
  {
    DigitsDenote(n);
    hide IsNumeral;
    if IsNumeral(ds, n) {
      assert ds != "" by { NotEmpty(ds, n); }
      NumeralSplit(ds, n);
      assert ds == ds[..|ds| - 1] + [ds[|ds| - 1]];
      if n >= 10 { NumeralExactly(ds[..|ds| - 1], n / 10); }
    }
  }

  lemma NotEmpty(ds: string, n: nat)
    requires IsNumeral(ds, n)
    ensures ds != ""
  {
  }

  // ---------- the children of the report ----------

  /** The index of a list item in brackets. */
  ghost predicate IsItemName(name: string, i: nat) {
    exists ds :: IsNumeral(ds, i) && name == "[" + ds + "]"
  }

  /**
   The child that a place gives, with its name: a member of the chain, or an item of the first list,
   which comes behind the members.
   */
  ghost predicate GivesKid(h: Heap, b: nat, ls: seq<Link>, p: Place, kid: Named)
    requires b in h
  {
    if p.link < |ls| then
      !p.item && p.index < |ls[p.link].cls.members| &&
      GivesNamed(h, b, ls[p.link].cls.members[p.index], ls[p.link].at, kid)
    else p.link == |ls| && p.item && GivesListed(h[b], ls, p.index, kid)
  }

  ghost predicate GivesNamed(h: Heap, b: nat, m: VarEntry, at: int, kid: Named)
    requires b in h
  {
    kid.name == m.name && exists e :: GivesMember(h, b, m, at, false, e) && e.child == kid.child
  }

  ghost predicate GivesListed(b: Block, ls: seq<Link>, i: nat, kid: Named) {
    && IsItemName(kid.name, i) && kid.child != Null
    && exists j: nat :: FirstOf(ls, ListContainer, j) && ListHas(b, ls[j].at, i, kid.child)
  }

  ghost predicate ListHas(b: Block, at: int, i: nat, c: Ref) {
    at in b.items && i < |b.items[at]| && b.items[at][i] == c
  }

  ghost function GivingKids(h: Heap, b: nat, ls: seq<Link>): (Place, Named) -> bool
    requires b in h
  {
    (p, kid) => GivesKid(h, b, ls, p, kid)
  }

  lemma EntryKids(h: Heap, b: nat, m: VarEntry, at: int, kid: Named)
    requires b in h
    ensures |EntryEdges(h, b, m, at, false)| <= 1 && |MemberNames(EntryEdges(h, b, m, at, false))| <= 1
    ensures kid in MemberNames(EntryEdges(h, b, m, at, false)) <==> GivesNamed(h, b, m, at, kid)
  {
    var es := EntryEdges(h, b, m, at, false);
    assert MemberNames([]) == [];
    if es != [] {
      assert es[..0] == [] && GivesMember(h, b, m, at, false, es[0]);
    }
  }

  lemma {:induction false} TableKids(h: Heap, b: nat, ls: seq<Link>, k: nat, n: nat) returns (ps: seq<Place>)
    requires b in h && k < |ls| && n <= |ls[k].cls.members|
    ensures Enumerates(GivingKids(h, b, ls), Place(k, false, 0), Place(k, false, n),
                       MemberNames(TableEdges(h, b, ls[k].cls.members[..n], ls[k].at, false)), ps)
  {
    hide Enumerates, EntryEdges, MemberNames, GivesNamed;
    var g := GivingKids(h, b, ls);
    var l := ls[k];
    if n == 0 {
      ps := [];
      NoKids(h, b, l);
      EnumeratesNone(g, Place(k, false, 0), Place(k, false, 0));
    } else {
      var front := TableKids(h, b, ls, k, n - 1);
      var m := l.cls.members[n - 1];
      var es := EntryEdges(h, b, m, l.at, false);
      assert l.cls.members[..n][..n - 1] == l.cls.members[..n - 1];
      var before := TableEdges(h, b, l.cls.members[..n - 1], l.at, false);
      MemberNamesAppend(before, es);
      forall kid ensures kid in MemberNames(es) <==> g(Place(k, false, n - 1), kid) {
        EntryKids(h, b, m, l.at, kid);
      }
      assert |MemberNames(es)| <= 1 by { EntryKids(h, b, m, l.at, Named(Null, "")); }
      OneKid(g, Place(k, false, n - 1), MemberNames(es));
      ps := front + if MemberNames(es) == [] then [] else [Place(k, false, n - 1)];
      EnumeratesTwo(g, Place(k, false, 0), Place(k, false, n - 1), Place(k, false, n), MemberNames(before), front,
                    MemberNames(es), if MemberNames(es) == [] then [] else [Place(k, false, n - 1)]);
    }
  }

  lemma OneKid(g: (Place, Named) -> bool, p: Place, kids: seq<Named>)
    requires |kids| <= 1 && forall kid :: kid in kids <==> g(p, kid)
    ensures Enumerates(g, p, Next(p), kids, if kids == [] then [] else [p])
  {
    hide Enumerates;
    if kids != [] { assert kids[0] in kids; }
    EnumeratesOne(g, p, kids);
  }

  lemma NoKids(h: Heap, b: nat, l: Link)
    requires b in h
    ensures MemberNames(TableEdges(h, b, l.cls.members[..0], l.at, false)) == []
  {
  }

  lemma {:induction false} ChainKids(h: Heap, b: nat, ls: seq<Link>, k: nat) returns (ps: seq<Place>)
    requires b in h && k < |ls| && IsChain(ls[0].cls, ls[0].at, ls)
    ensures Enumerates(GivingKids(h, b, ls), Place(k, false, 0), Place(|ls|, false, 0),
                       MemberNames(ChainMembers(h, b, ls[k].cls, ls[k].at)), ps)
    decreases |ls| - k
  {
    hide Enumerates, TableEdges, MemberNames, GivesNamed;
    var g := GivingKids(h, b, ls);
    var l := ls[k];
    var n := |l.cls.members|;
    assert l.cls.members[..n] == l.cls.members;
    var own := TableEdges(h, b, l.cls.members, l.at, false);
    var first := TableKids(h, b, ls, k, n);
    EnumeratesNone(g, Place(k, false, n), Place(k + 1, false, 0));
    EnumeratesTwo(g, Place(k, false, 0), Place(k, false, n), Place(k + 1, false, 0), MemberNames(own), first, [], []);
    ps := first + [];
    assert MemberNames(own) + [] == MemberNames(own);
    if k + 1 < |ls| {
      var rest := ChainKids(h, b, ls, k + 1);
      var others := ChainMembers(h, b, ls[k + 1].cls, ls[k + 1].at);
      MemberNamesAppend(own, others);
      EnumeratesTwo(g, Place(k, false, 0), Place(k + 1, false, 0), Place(|ls|, false, 0), MemberNames(own), ps,
                    MemberNames(others), rest);
      ps := ps + rest;
    } else {
      assert own + [] == own;
    }
  }

  lemma ItemGiven(h: Heap, b: nat, ls: seq<Link>, j: nat, i: nat, kid: Named)
    requires b in h && FirstOf(ls, ListContainer, j) && ls[j].at in h[b].items && i < |h[b].items[ls[j].at]|
    ensures GivesKid(h, b, ls, Place(|ls|, true, i), kid) <==>
            h[b].items[ls[j].at][i] != Null && kid == Named(h[b].items[ls[j].at][i], "[" + Digits(i) + "]")
  {
    hide Digits, IsNumeral;
    var c := h[b].items[ls[j].at][i];
    NumeralExactly(Digits(i), i);
    if GivesListed(h[b], ls, i, kid) {
      var ds :| IsNumeral(ds, i) && kid.name == "[" + ds + "]";
      NumeralExactly(ds, i);
      var k: nat :| FirstOf(ls, ListContainer, k) && ListHas(h[b], ls[k].at, i, kid.child);
      FirstIsOne(ls, ListContainer, j, k);
    }
    if c != Null && kid == Named(c, "[" + Digits(i) + "]") {
      assert IsItemName(kid.name, i) && ListHas(h[b], ls[j].at, i, kid.child);
    }
  }

  lemma {:induction false} ItemKids(h: Heap, b: nat, ls: seq<Link>, j: nat, n: nat) returns (ps: seq<Place>)
    requires b in h && FirstOf(ls, ListContainer, j) && ls[j].at in h[b].items && n <= |h[b].items[ls[j].at]|
    ensures Enumerates(GivingKids(h, b, ls), Place(|ls|, true, 0), Place(|ls|, true, n),
                       ItemNamed(h[b].items[ls[j].at], n), ps)
  {
    hide Enumerates, GivesKid, Digits;
    var g := GivingKids(h, b, ls);
    if n == 0 {
      ps := [];
      EnumeratesNone(g, Place(|ls|, true, 0), Place(|ls|, true, 0));
    } else {
      var front := ItemKids(h, b, ls, j, n - 1);
      var rs := h[b].items[ls[j].at];
      var kids := if rs[n - 1].At? then [Named(rs[n - 1], "[" + Digits(n - 1) + "]")] else [];
      forall kid ensures kid in kids <==> g(Place(|ls|, true, n - 1), kid) {
        ItemGiven(h, b, ls, j, n - 1, kid);
      }
      OneKid(g, Place(|ls|, true, n - 1), kids);
      ps := front + if kids == [] then [] else [Place(|ls|, true, n - 1)];
      EnumeratesTwo(g, Place(|ls|, true, 0), Place(|ls|, true, n - 1), Place(|ls|, true, n), ItemNamed(rs, n - 1),
                    front, kids, if kids == [] then [] else [Place(|ls|, true, n - 1)]);
    }
  }

  lemma FirstPlace(h: Heap, r: Ref, j: nat)
    requires IsObject(h, r) && FirstOf(Links(ClassOf(h, r), r.off), ListContainer, j)
    ensures CastTo(ListContainer, ClassOf(h, r), r.off) == Some(Links(ClassOf(h, r), r.off)[j].at)
  {
    hide Links, IsChain, CastTo;
    FirstIsCast(h, r, ListContainer);
  }

  lemma NoMoreItems(h: Heap, b: nat, ls: seq<Link>, j: nat)
    requires b in h && FirstOf(ls, ListContainer, j) && ls[j].at in h[b].items
    ensures forall p: Place, kid | p.link == |ls| && p.index >= |h[b].items[ls[j].at]| :: !GivesKid(h, b, ls, p, kid)
  {
    hide IsItemName;
    forall k: nat | FirstOf(ls, ListContainer, k) ensures k == j { FirstIsOne(ls, ListContainer, j, k); }
  }

  lemma NoItems(h: Heap, r: Ref)
    requires IsObject(h, r)
    requires var list := CastTo(ListContainer, ClassOf(h, r), r.off); list.None? || list.value !in h[r.block].items
    ensures var ls := Links(ClassOf(h, r), r.off);
            forall p: Place, kid | p.link == |ls| :: !GivesKid(h, r.block, ls, p, kid)
  {
    hide Links, IsChain, CastTo, IsItemName;
    FirstIsCast(h, r, ListContainer);
  }

  lemma KidsWithin(h: Heap, b: nat, ls: seq<Link>, kids: seq<Named>, ps: seq<Place>)
    requires b in h && Enumerates(GivingKids(h, b, ls), Place(0, false, 0), Place(|ls| + 1, false, 0), kids, ps)
    ensures |ps| == |kids|
    ensures forall i | 0 <= i < |ps| :: GivesKid(h, b, ls, ps[i], kids[i])
    ensures forall i, j | 0 <= i < j < |ps| :: Before(ps[i], ps[j])
    ensures forall p, kid | GivesKid(h, b, ls, p, kid) :: p in ps
  {
    hide GivesListed, GivesNamed;
    var g := GivingKids(h, b, ls);
    forall p, kid | GivesKid(h, b, ls, p, kid) ensures p in ps {
      assert g(p, kid) && Within(Place(0, false, 0), p, Place(|ls| + 1, false, 0));
    }
    forall i | 0 <= i < |ps| ensures GivesKid(h, b, ls, ps[i], kids[i]) {
      assert g(ps[i], kids[i]);
    }
  }

  /**
   The children of an object are exactly what the places of its chain and of its first list give, in
   order, each once for its place and under its name.
   */
  lemma KidsInOrder(h: Heap, r: Ref) returns (ps: seq<Place>)
    requires IsObject(h, r)
    ensures var ls := Links(ClassOf(h, r), r.off); var kids := Kids(h, r);
            && |ps| == |kids|
            && (forall i | 0 <= i < |ps| :: GivesKid(h, r.block, ls, ps[i], kids[i]))
            && (forall i, j | 0 <= i < j < |ps| :: Before(ps[i], ps[j]))
            && (forall p, kid | GivesKid(h, r.block, ls, p, kid) :: p in ps)
  {
    hide Links, Enumerates, MemberNames, ItemNamed, ChainMembers;
    var b, ls := r.block, Links(ClassOf(h, r), r.off);
    var g := GivingKids(h, b, ls);
    var n := |ls|;
    ps := ChainKids(h, b, ls, 0);
    var members := MemberNames(ChainMembers(h, b, ClassOf(h, r), r.off));
    FirstIsCast(h, r, ListContainer);
    var list := CastTo(ListContainer, ClassOf(h, r), r.off);
    EnumeratesNone(g, Place(n, false, 0), Place(n, true, 0));
    EnumeratesTwo(g, Place(0, false, 0), Place(n, false, 0), Place(n, true, 0), members, ps, [], []);
    if list.Some? && list.value in h[b].items {
      var j: nat :| FirstOf(ls, ListContainer, j);
      var size := |h[b].items[list.value]|;
      assert ls[j].at == list.value by { FirstPlace(h, r, j); }
      var qs := ItemKids(h, b, ls, j, size);
      EnumeratesTwo(g, Place(0, false, 0), Place(n, true, 0), Place(n, true, size), members + [], ps + [],
                    ItemNamed(h[b].items[list.value], size), qs);
      NoMoreItems(h, b, ls, j);
      EnumeratesNone(g, Place(n, true, size), Place(n + 1, false, 0));
      EnumeratesTwo(g, Place(0, false, 0), Place(n, true, size), Place(n + 1, false, 0), Kids(h, r), ps + [] + qs,
                    [], []);
      ps := ps + [] + qs + [];
    } else {
      NoItems(h, r);
      EnumeratesNone(g, Place(n, true, 0), Place(n + 1, false, 0));
      EnumeratesTwo(g, Place(0, false, 0), Place(n, true, 0), Place(n + 1, false, 0), members + [], ps + [], [], []);
      ps := ps + [] + [];
    }
    assert Kids(h, r) + [] == Kids(h, r);
    KidsWithin(h, b, ls, Kids(h, r), ps);
  }

  // ---------- following names ----------

  /** The name leads from an object to a member of its chain or to an item of its first list. */
  ghost predicate NameLeads(h: Heap, a: Ref, name: string, c: Ref) {
    IsObject(h, a) && exists p :: GivesKid(h, a.block, Links(ClassOf(h, a), a.off), p, Named(c, name))
  }

  lemma NameLeadsExactly(h: Heap, a: Ref, kid: Named)
    requires IsObject(h, a)
    ensures NameLeads(h, a, kid.name, kid.child) <==> kid in Kids(h, a)
  {
    hide Links, Kids, GivesListed, GivesNamed;
    var ls, kids := Links(ClassOf(h, a), a.off), Kids(h, a);
    var ps := KidsInOrder(h, a);
    assert kid == Named(kid.child, kid.name);
    if kid in kids {
      var i :| 0 <= i < |kids| && kids[i] == kid;
      assert GivesKid(h, a.block, ls, ps[i], kid);
    }
    forall p | GivesKid(h, a.block, ls, p, kid) ensures kid in kids {
      var i :| 0 <= i < |ps| && ps[i] == p;
      OneKidEach(h, a.block, ls, p, kid, kids[i]);
    }
  }

  /** A place gives one child at most. */
  lemma OneKidEach(h: Heap, b: nat, ls: seq<Link>, p: Place, k: Named, l: Named)
    requires b in h && GivesKid(h, b, ls, p, k) && GivesKid(h, b, ls, p, l)
    ensures k == l
  {
    hide IsNumeral;
    if p.link < |ls| {
    } else {
      var ds :| IsNumeral(ds, p.index) && k.name == "[" + ds + "]";
      var es :| IsNumeral(es, p.index) && l.name == "[" + es + "]";
      NumeralExactly(ds, p.index);
      NumeralExactly(es, p.index);
      var i: nat :| FirstOf(ls, ListContainer, i) && ListHas(h[b], ls[i].at, p.index, k.child);
      var j: nat :| FirstOf(ls, ListContainer, j) && ListHas(h[b], ls[j].at, p.index, l.child);
      FirstIsOne(ls, ListContainer, i, j);
    }
  }

  /** Objects that names lead through, one after the other. */
  ghost predicate NamedPath(h: Heap, ns: seq<Ref>, names: seq<string>) {
    && |ns| == |names| + 1 && IsObject(h, ns[0])
    && forall i | 0 <= i < |names| :: NameLeads(h, ns[i], names[i], ns[i + 1])
  }

  /** The names of a walk lead through its objects. */
  lemma {:induction false} WalkIsNamed(h: Heap, obj: Ref, ks: seq<nat>)
    requires IsWalk(h, obj, ks)
    ensures NamedPath(h, Nodes(h, obj, ks), WalkNames(h, obj, ks)) && Nodes(h, obj, ks)[0] == obj
    decreases |ks|
  {
    hide Kids, NameLeads;
    if ks != [] {
      var kid := Kids(h, obj)[ks[0]];
      WalkIsNamed(h, kid.child, ks[1..]);
      NameLeadsExactly(h, obj, kid);
      var ns, names := Nodes(h, obj, ks), WalkNames(h, obj, ks);
      var ms, rest := Nodes(h, kid.child, ks[1..]), WalkNames(h, kid.child, ks[1..]);
      assert ns == [obj] + ms && names == [kid.name] + rest;
      forall i | 0 <= i < |names| ensures NameLeads(h, ns[i], names[i], ns[i + 1]) {
        if i > 0 { assert NameLeads(h, ms[i - 1], rest[i - 1], ms[i]); }
      }
    }
  }

  /** Whatever path names lead along is that of a walk. */
  lemma {:induction false} NamedIsWalk(h: Heap, ns: seq<Ref>, names: seq<string>) returns (ks: seq<nat>)
    requires NamedPath(h, ns, names) && forall x | x in ns :: IsObject(h, x)
    ensures IsWalk(h, ns[0], ks) && Nodes(h, ns[0], ks) == ns && WalkNames(h, ns[0], ks) == names
    decreases |names|
  {
    hide Kids, NameLeads;
    if names == [] {
      ks := [];
    } else {
      var rest := NamedIsWalk(h, ns[1..], names[1..]);
      assert NameLeads(h, ns[0], names[0], ns[1]);
      NameLeadsExactly(h, ns[0], Named(ns[1], names[0]));
      var k :| 0 <= k < |Kids(h, ns[0])| && Kids(h, ns[0])[k] == Named(ns[1], names[0]);
      ks := [k] + rest;
      assert ks[1..] == rest;
    }
  }

  /** A cycle can be reached if and only if names lead from the object through some object twice. */
  lemma CycleIsNamed(h: Heap, obj: Ref)
    ensures ReachesCycle(h, obj) <==>
            exists ns: seq<Ref>, names :: NamedPath(h, ns, names) && ns[0] == obj && !NoDup(ns)
                                          && forall x | x in ns :: IsObject(h, x)
  {
    hide NameLeads, Kids;
    if ReachesCycle(h, obj) {
      var ks :| Repeats(h, obj, ks);
      WalkIsNamed(h, obj, ks);
      NodesAreObjects(h, obj, ks);
      assert !NoDup(Nodes(h, obj, ks));
    }
    forall ns: seq<Ref>, names | NamedPath(h, ns, names) && ns[0] == obj && !NoDup(ns)
                                 && forall x | x in ns :: IsObject(h, x)
      ensures ReachesCycle(h, obj)
    {
      var ks := NamedIsWalk(h, ns, names);
      assert Repeats(h, obj, ks);
    }
  }

  lemma {:induction false} NodesAreObjects(h: Heap, obj: Ref, ks: seq<nat>)
    requires IsWalk(h, obj, ks)
    ensures forall x | x in Nodes(h, obj, ks) :: IsObject(h, x)
    decreases |ks|
  {
    hide Kids;
    if ks != [] {
      NodesAreObjects(h, Kids(h, obj)[ks[0]].child, ks[1..]);
    }
  }

  /** No object has two children of one name. */
  ghost predicate NamesDiffer(h: Heap) {
    forall a, name, b, c | NameLeads(h, a, name, b) && NameLeads(h, a, name, c) :: b == c
  }

  /** Where names differ, following the names of a walk from its start leads along it and nowhere else. */
  lemma {:induction false} NamesDecide(h: Heap, ns: seq<Ref>, ms: seq<Ref>, names: seq<string>)
    requires NamesDiffer(h) && NamedPath(h, ns, names) && NamedPath(h, ms, names) && ns[0] == ms[0]
    ensures ns == ms
  {
    hide NameLeads;
    if names != [] {
      var n := |names| - 1;
      assert NamedPath(h, ns[..n + 1], names[..n]) && NamedPath(h, ms[..n + 1], names[..n]);
      NamesDecide(h, ns[..n + 1], ms[..n + 1], names[..n]);
      assert ns[..n + 1][n] == ns[n] && ms[..n + 1][n] == ms[n];
      assert ns == ns[..n + 1] + [ns[n + 1]] && ms == ms[..n + 1] + [ms[n + 1]];
    }
  }

  // ---------- splitting a report ----------

  /** The parts between the dots. */
  function Split(s: string): seq<string> {
    if s == "" then [""]
    else
      var parts := Split(s[..|s| - 1]);
      if s[|s| - 1] == '.' then parts + [""] else parts[..|parts| - 1] + [parts[|parts| - 1] + [s[|s| - 1]]]
  }

  lemma {:induction false} SplitAppend(s: string, t: string)
    requires '.' !in t
    ensures var parts := Split(s); var n := |parts| - 1;
            n >= 0 && Split(s + t) == parts[..n] + [parts[n] + t]
  {
    var parts := Split(s);
    if t == "" {
      assert s + t == s && parts[|parts| - 1] + t == parts[|parts| - 1];
    } else {
      var front, c := t[..|t| - 1], t[|t| - 1];
      assert c in t;
      SplitAppend(s, front);
      assert (s + t)[..|s + t| - 1] == s + front && (s + t)[|s + t| - 1] == c;
      assert parts[|parts| - 1] + front + [c] == parts[|parts| - 1] + t;
    }
  }

  lemma SplitDot(s: string)
    ensures Split(s + ".") == Split(s) + [""] && Split("") == [""]
  {
    assert (s + ".")[..|s + "."| - 1] == s;
  }

  lemma {:induction false} SplitJoined(names: seq<string>)
    requires names != [] && forall n | n in names :: '.' !in n
    ensures Split(Join(names)) == names
  {
    hide Split;
    var n := |names| - 1;
    var front, last := names[..n], names[n];
    assert "" + last == last && names == front + [last];
    if n == 0 {
      SplitDot("");
      SplitAppend("", last);
    } else {
      SplitJoined(front);
      SplitDot(Join(front));
      SplitAppend(Join(front) + ".", last);
    }
  }

  /** A report, split at its dots, begins with the operand and then names the way along its lasso. */
  lemma ReportReadsBack(h: Heap, obj: Ref, ks: seq<nat>)
    requires IsLasso(h, {}, obj, ks) && forall n | n in WalkNames(h, obj, ks) :: '.' !in n
    ensures var parts := Split(Join(["<operand>"] + WalkNames(h, obj, ks))); var ns := Nodes(h, obj, ks);
            && parts[0] == "<operand>" && NamedPath(h, ns, parts[1..]) && ns[0] == obj
            && (NamesDiffer(h) ==> forall ms | NamedPath(h, ms, parts[1..]) && ms[0] == obj :: ms == ns)
  {
    hide NameLeads, NamesDiffer, Nodes, WalkNames, Join, Split;
    var names, ns := WalkNames(h, obj, ks), Nodes(h, obj, ks);
    SplitJoined(["<operand>"] + names);
    assert (["<operand>"] + names)[1..] == names;
    WalkIsNamed(h, obj, ks);
    forall ms | NamesDiffer(h) && NamedPath(h, ms, names) && ms[0] == obj ensures ms == ns {
      NamesDecide(h, ns, ms, names);
    }
  }
}

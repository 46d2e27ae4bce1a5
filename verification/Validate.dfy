/** The cycle report: one name path for every way to run back into an ancestor. */
module Validate {
  import opened Basics
  import opened ObjectModel
  import opened Children
  import opened Search
  import opened RouteSteps

  /** A child as the report names it. */
  datatype Named = Named(child: Ref, name: string)

  function Digits(n: nat): string {
    (if n < 10 then "" else Digits(n / 10)) + ["0123456789"[n % 10]]
  }

  function Power10(k: nat): nat { if k == 0 then 1 else 10 * Power10(k - 1) }

  lemma {:induction false} DigitsSize(n: nat, k: nat)
    requires k > 0
    ensures |Digits(n)| <= k <==> n < Power10(k)
  {
    if k == 1 {
      assert Power10(1) == 10 * Power10(0);
      assert n >= 10 ==> |Digits(n / 10)| >= 1;
    } else if n < 10 {
      AtLeastTen(k);
    } else {
      DigitsSize(n / 10, k - 1);
    }
  }

  lemma {:induction false} AtLeastTen(k: nat)
    requires k > 0
    ensures Power10(k) >= 10
  {
    if k > 1 { AtLeastTen(k - 1); }
  }

  /** The name of an item is formatted into ten characters, the last of them a zero. */
  const NAME_SIZE := 10

  predicate NameFits(n: nat) { |"[" + Digits(n) + "]"| < NAME_SIZE }

  lemma NameFitsExactly(n: nat)
    ensures NameFits(n) <==> n < 10_000_000
  {
    DigitsSize(n, 7);
    assert Power10(7) == 10_000_000;
  }

  function MemberNames(es: seq<Edge>): seq<Named> {
    if es == [] then [] else
      var e := es[|es| - 1];
      MemberNames(es[..|es| - 1]) + [Named(e.child, if e.via.Attribute? then e.via.name else "")]
  }

  function ItemNamed(rs: seq<Ref>, n: nat): seq<Named>
    requires n <= |rs|
  {
    if n == 0 then [] else
      ItemNamed(rs, n - 1) + (if rs[n - 1].At? then [Named(rs[n - 1], "[" + Digits(n - 1) + "]")] else [])
  }

  function ChainMembers(h: Heap, b: nat, cls: ClassInfo, at: int): seq<Edge>
    requires b in h
  {
    TableEdges(h, b, cls.members, at, false) +
    (if cls.parent.Some? then ChainMembers(h, b, cls.parent.value, at + cls.offsetToParent) else [])
  }

  /** All members of the class chain, then the items of the list the object casts to; dicts are not entered. */
  function Kids(h: Heap, r: Ref): seq<Named>
    requires IsObject(h, r)
  {
    var list := CastTo(ListContainer, ClassOf(h, r), r.off);
    MemberNames(ChainMembers(h, r.block, ClassOf(h, r), r.off)) +
    (if list.Some? && list.value in h[r.block].items
     then ItemNamed(h[r.block].items[list.value], |h[r.block].items[list.value]|) else [])
  }

  function RestMembers(h: Heap, b: nat, t: Option<ClassInfo>, at: int): seq<Edge>
    requires b in h
  {
    if t.Some? then ChainMembers(h, b, t.value, at) else []
  }

  lemma NextMembers(h: Heap, b: nat, c: ClassInfo, at: int)
    requires b in h
    ensures RestMembers(h, b, Some(c), at)
         == TableEdges(h, b, c.members, at, false) + RestMembers(h, b, c.parent, at + c.offsetToParent)
  {
    hide TableEdges;
  }

  method EnumerateKids(h: Heap, obj: Ref) returns (ks: seq<Named>)
    requires IsObject(h, obj)
    ensures ks == Kids(h, obj)
  {
    hide Kids, TableEdges, RestMembers, MemberNames;
    var b := obj.block;
    ks := [];
    var t: Option<ClassInfo> := Some(ClassOf(h, obj));
    var at := obj.off;
    ghost var members := [];
    NoMembers(h, b, at);
    ghost var all := RestMembers(h, b, t, at);
    while t.Some?
      invariant ks == MemberNames(members)
      invariant members + RestMembers(h, b, t, at) == all
      decreases t
    {
      NextMembers(h, b, t.value, at);
      var es := EnumerateTable(h, b, t.value.members, at, false);
      var named := NameMembers(es);
      MemberNamesAppend(members, es);
      ks := ks + named;
      members := members + es;
      at := at + t.value.offsetToParent;
      t := t.value.parent;
    }
    NoMembers(h, b, at);
    assert members == all;
    var list := CastTo(ListContainer, ClassOf(h, obj), obj.off);
    if list.Some? && list.value in h[b].items {
      var items := NameItems(h[b].items[list.value]);
      ks := ks + items;
    }
    KidsAre(h, obj);
  }

  lemma NoMembers(h: Heap, b: nat, at: int)
    requires b in h
    ensures RestMembers(h, b, None, at) == [] && MemberNames([]) == []
  {
  }

  lemma KidsAre(h: Heap, r: Ref)
    requires IsObject(h, r)
    ensures var list := CastTo(ListContainer, ClassOf(h, r), r.off);
            Kids(h, r) ==
            MemberNames(RestMembers(h, r.block, Some(ClassOf(h, r)), r.off)) +
            (if list.Some? && list.value in h[r.block].items
             then ItemNamed(h[r.block].items[list.value], |h[r.block].items[list.value]|) else [])
  {
  }

  method NameMembers(es: seq<Edge>) returns (ns: seq<Named>)
    ensures ns == MemberNames(es)
  {
    ns := [];
    for i := 0 to |es|
      invariant ns == MemberNames(es[..i])
    {
      assert es[..i + 1][..i] == es[..i];
      ns := ns + [Named(es[i].child, if es[i].via.Attribute? then es[i].via.name else "")];
    }
    assert es[..|es|] == es;
  }

  method NameItems(rs: seq<Ref>) returns (ns: seq<Named>)
    ensures ns == ItemNamed(rs, |rs|)
  {
    ns := [];
    for i := 0 to |rs|
      invariant ns == ItemNamed(rs, i)
    {
      if rs[i].At? {
        ns := ns + [Named(rs[i], "[" + Digits(i) + "]")];
      }
    }
  }

  lemma {:induction false} MemberNamesAppend(es: seq<Edge>, fs: seq<Edge>)
    ensures MemberNames(es + fs) == MemberNames(es) + MemberNames(fs)
  {
    if fs == [] {
      assert es + fs == es;
    } else {
      var front := fs[..|fs| - 1];
      assert (es + fs)[..|es + fs| - 1] == es + front;
      MemberNamesAppend(es, front);
    }
  }

  // ---------- children are objects ----------

  lemma {:induction false} MemberNamesOk(h: Heap, es: seq<Edge>)
    requires forall e | e in es :: IsObject(h, e.child)
    ensures forall k | k in MemberNames(es) :: IsObject(h, k.child)
  {
    if es != [] {
      MemberNamesOk(h, es[..|es| - 1]);
    }
  }

  lemma {:induction false} ItemNamedOk(h: Heap, rs: seq<Ref>, n: nat)
    requires n <= |rs| && forall i | 0 <= i < |rs| && rs[i].At? :: IsObject(h, rs[i])
    ensures forall k | k in ItemNamed(rs, n) :: IsObject(h, k.child)
  {
    if n > 0 {
      ItemNamedOk(h, rs, n - 1);
    }
  }

  lemma {:induction false} ChainMembersOk(h: Heap, b: nat, cls: ClassInfo, at: int)
    requires GraphOk(h) && b in h
    requires forall f | f in Fields(cls, at) && f.entry.varType.Root? :: EmbeddedOk(h, b, f)
    ensures forall e | e in ChainMembers(h, b, cls, at) :: IsObject(h, e.child)
  {
    hide GraphOk, EmbeddedOk, TableEdges;
    forall m | m in cls.members && m.varType.Root? ensures EmbeddedOk(h, b, Field(m, at)) {
      assert Field(m, at) in TableFields(cls.members, at);
    }
    TableEdgesOk(h, b, cls.members, at, false);
    if cls.parent.Some? {
      ChainMembersOk(h, b, cls.parent.value, at + cls.offsetToParent);
    }
  }

  lemma KidsOk(h: Heap, r: Ref)
    requires GraphOk(h) && IsObject(h, r)
    ensures forall k | k in Kids(h, r) :: IsObject(h, k.child)
  {
    ChainMembersOk(h, r.block, ClassOf(h, r), r.off);
    MemberNamesOk(h, ChainMembers(h, r.block, ClassOf(h, r), r.off));
    var list := CastTo(ListContainer, ClassOf(h, r), r.off);
    if list.Some? && list.value in h[r.block].items {
      ListItemsOk(h, r.block, list.value);
    }
  }

  lemma ListItemsOk(h: Heap, b: nat, at: int)
    requires GraphOk(h) && b in h && at in h[b].items
    ensures forall k | k in ItemNamed(h[b].items[at], |h[b].items[at]|) :: IsObject(h, k.child)
  {
    ItemNamedOk(h, h[b].items[at], |h[b].items[at]|);
  }

  // ---------- walks and lassos ----------

  /** A walk is a sequence of child indices; these are the objects it visits. */
  ghost predicate IsWalk(h: Heap, obj: Ref, ks: seq<nat>)
    decreases |ks|
  {
    IsObject(h, obj) && (ks != [] ==> ks[0] < |Kids(h, obj)| && IsWalk(h, Kids(h, obj)[ks[0]].child, ks[1..]))
  }

  ghost function Nodes(h: Heap, obj: Ref, ks: seq<nat>): seq<Ref>
    requires IsWalk(h, obj, ks)
    decreases |ks|
  {
    if ks == [] then [obj] else [obj] + Nodes(h, Kids(h, obj)[ks[0]].child, ks[1..])
  }

  ghost function WalkNames(h: Heap, obj: Ref, ks: seq<nat>): seq<string>
    requires IsWalk(h, obj, ks)
    decreases |ks|
  {
    if ks == [] then [] else [Kids(h, obj)[ks[0]].name] + WalkNames(h, Kids(h, obj)[ks[0]].child, ks[1..])
  }

  lemma {:induction false} NodesLength(h: Heap, obj: Ref, ks: seq<nat>)
    requires IsWalk(h, obj, ks)
    ensures |Nodes(h, obj, ks)| == |ks| + 1 && Nodes(h, obj, ks)[0] == obj
    decreases |ks|
  {
    if ks != [] {
      NodesLength(h, Kids(h, obj)[ks[0]].child, ks[1..]);
    }
  }

  /**
   A lasso: all objects but the last are different from each other and from the given ancestors,
   and the last is one of them again.
   */
  ghost predicate IsLasso(h: Heap, ancestors: set<Ref>, obj: Ref, ks: seq<nat>) {
    && IsWalk(h, obj, ks)
    && var ns := Nodes(h, obj, ks);
       var n := |ns| - 1;
       && n >= 0
       && (forall i, j | 0 <= i < j < n :: ns[i] != ns[j])
       && (forall i | 0 <= i < n :: ns[i] !in ancestors)
       && (ns[n] in ancestors || ns[n] in ns[..n])
  }

  /** At an ancestor there is one lasso, the empty one; elsewhere a lasso starts with a child. */
  lemma LassoAtAncestor(h: Heap, ancestors: set<Ref>, obj: Ref, ks: seq<nat>)
    requires obj in ancestors && IsObject(h, obj)
    ensures IsLasso(h, ancestors, obj, ks) <==> ks == []
  {
    if IsWalk(h, obj, ks) { NodesLength(h, obj, ks); }
  }

  lemma LassoStep(h: Heap, ancestors: set<Ref>, obj: Ref, ks: seq<nat>)
    requires obj !in ancestors && IsObject(h, obj)
    ensures IsLasso(h, ancestors, obj, ks) <==>
            ks != [] && ks[0] < |Kids(h, obj)| && IsLasso(h, ancestors + {obj}, Kids(h, obj)[ks[0]].child, ks[1..])
  {
    if ks != [] && IsWalk(h, obj, ks) {
      var child := Kids(h, obj)[ks[0]].child;
      NodesLength(h, child, ks[1..]);
      var ns, ms := Nodes(h, obj, ks), Nodes(h, child, ks[1..]);
      assert ns == [obj] + ms;
      hide Nodes, IsWalk;
      LassoShift(ancestors, obj, ns, ms);
    }
  }

  ghost predicate Tail(ancestors: set<Ref>, ns: seq<Ref>)
    requires ns != []
  {
    var n := |ns| - 1;
    && (forall i, j | 0 <= i < j < n :: ns[i] != ns[j])
    && (forall i | 0 <= i < n :: ns[i] !in ancestors)
    && (ns[n] in ancestors || ns[n] in ns[..n])
  }

  lemma LassoShift(ancestors: set<Ref>, obj: Ref, ns: seq<Ref>, ms: seq<Ref>)
    requires obj !in ancestors && ms != [] && ns == [obj] + ms
    ensures Tail(ancestors, ns) <==> Tail(ancestors + {obj}, ms)
  {
    hide Tail;
    if Tail(ancestors + {obj}, ms) { LassoLonger(ancestors, obj, ns, ms); }
    if Tail(ancestors, ns) { LassoShorter(ancestors, obj, ns, ms); }
  }

  lemma LassoLonger(ancestors: set<Ref>, obj: Ref, ns: seq<Ref>, ms: seq<Ref>)
    requires obj !in ancestors && ms != [] && ns == [obj] + ms && Tail(ancestors + {obj}, ms)
    ensures Tail(ancestors, ns)
  {
    var n := |ms| - 1;
    assert ns[..n + 1] == [obj] + ms[..n];
    forall i, j | 0 <= i < j < n + 1 ensures ns[i] != ns[j] {
      assert ns[j] == ms[j - 1];
      if i > 0 { assert ns[i] == ms[i - 1]; }
    }
  }

  lemma LassoShorter(ancestors: set<Ref>, obj: Ref, ns: seq<Ref>, ms: seq<Ref>)
    requires obj !in ancestors && ms != [] && ns == [obj] + ms && Tail(ancestors, ns)
    ensures Tail(ancestors + {obj}, ms)
  {
    var n := |ms| - 1;
    assert ns[..n + 1] == [obj] + ms[..n];
    forall i, j | 0 <= i < j < n ensures ms[i] != ms[j] { assert ms[i] == ns[i + 1] && ms[j] == ns[j + 1]; }
    forall i | 0 <= i < n ensures ms[i] !in ancestors + {obj} { assert ms[i] == ns[i + 1] && ns[0] != ns[i + 1]; }
  }

  // ---------- the report ----------

  /** Names joined by dots. */
  function Join(names: seq<string>): string {
    if names == [] then "" else if |names| == 1 then names[0] else Join(names[..|names| - 1]) + "." + names[|names| - 1]
  }

  /** Writes every name followed by a dot and takes the final dot off again. */
  method Render(names: seq<string>) returns (s: string)
    requires names != []
    ensures s == Join(names)
  {
    s := "";
    for i := 0 to |names|
      invariant i == 0 ==> s == ""
      invariant i > 0 ==> s == Join(names[..i]) + "."
    {
      assert names[..i + 1][..i] == names[..i];
      s := s + names[i] + ".";
    }
    assert names[..|names|] == names;
    s := s[..|s| - 1];
  }

  /** The reports for the lassos found, in order. */
  ghost predicate Reported(h: Heap, names: seq<string>, obj: Ref, found: seq<seq<nat>>, reports: seq<string>) {
    && |reports| == |found|
    && forall i | 0 <= i < |found| :: IsWalk(h, obj, found[i])
        && reports[i] == Join(names + WalkNames(h, obj, found[i]))
  }

  /** All lassos of an object that begin with one of its first `n` children. */
  ghost predicate FoundBelow(h: Heap, ancestors: set<Ref>, obj: Ref, n: nat, found: seq<seq<nat>>) {
    && NoDup(found)
    && forall ks :: ks in found <==> IsLasso(h, ancestors, obj, ks) && ks != [] && ks[0] < n
  }

  ghost predicate FoundAll(h: Heap, ancestors: set<Ref>, obj: Ref, found: seq<seq<nat>>) {
    NoDup(found) && forall ks :: ks in found <==> IsLasso(h, ancestors, obj, ks)
  }

  function Prefixed(k: nat, found: seq<seq<nat>>): (r: seq<seq<nat>>)
    ensures |r| == |found| && forall i | 0 <= i < |found| :: r[i] == [k] + found[i]
  {
    seq(|found|, i requires 0 <= i < |found| => [k] + found[i])
  }

  lemma PrefixedIs(k: nat, found: seq<seq<nat>>, ks: seq<nat>)
    ensures ks in Prefixed(k, found) <==> ks != [] && ks[0] == k && ks[1..] in found
  {
    if ks in Prefixed(k, found) {
      var i :| 0 <= i < |found| && Prefixed(k, found)[i] == ks;
      assert ks[1..] == found[i];
    }
    if ks != [] && ks[0] == k && ks[1..] in found {
      var i :| 0 <= i < |found| && found[i] == ks[1..];
      assert Prefixed(k, found)[i] == ks;
    }
  }

  lemma PrefixedNoDup(k: nat, found: seq<seq<nat>>)
    requires NoDup(found)
    ensures NoDup(Prefixed(k, found))
  {
    forall i, j | 0 <= i < j < |found| ensures Prefixed(k, found)[i] != Prefixed(k, found)[j] {
      assert Prefixed(k, found)[i][1..] == found[i] && Prefixed(k, found)[j][1..] == found[j];
    }
  }

  /** The lassos through one more child. */
  lemma NextChild(h: Heap, ancestors: set<Ref>, obj: Ref, k: nat, before: seq<seq<nat>>, below: seq<seq<nat>>)
    requires IsObject(h, obj) && obj !in ancestors && k < |Kids(h, obj)|
    requires FoundBelow(h, ancestors, obj, k, before)
    requires FoundAll(h, ancestors + {obj}, Kids(h, obj)[k].child, below)
    ensures FoundBelow(h, ancestors, obj, k + 1, before + Prefixed(k, below))
  {
    hide IsLasso, Kids;
    var all := before + Prefixed(k, below);
    forall ks ensures ks in all <==> IsLasso(h, ancestors, obj, ks) && ks != [] && ks[0] < k + 1 {
      PrefixedIs(k, below, ks);
      LassoStep(h, ancestors, obj, ks);
    }
    PrefixedNoDup(k, below);
    forall i, j | 0 <= i < j < |all| ensures all[i] != all[j] {
      if i < |before| <= j {
        PrefixedIs(k, below, all[j]);
        assert all[i] in before && all[j] in Prefixed(k, below);
      }
    }
  }

  lemma AllChildren(h: Heap, ancestors: set<Ref>, obj: Ref, found: seq<seq<nat>>)
    requires IsObject(h, obj) && obj !in ancestors && FoundBelow(h, ancestors, obj, |Kids(h, obj)|, found)
    ensures FoundAll(h, ancestors, obj, found)
  {
    hide IsLasso, Kids;
    forall ks ensures ks in found <==> IsLasso(h, ancestors, obj, ks) {
      LassoStep(h, ancestors, obj, ks);
    }
  }

  lemma MoreReports(h: Heap, names: seq<string>, obj: Ref, k: nat, before: seq<seq<nat>>, below: seq<seq<nat>>,
          reported: seq<string>, added: seq<string>)
    requires IsObject(h, obj) && k < |Kids(h, obj)|
    requires Reported(h, names, obj, before, reported)
    requires Reported(h, names + [Kids(h, obj)[k].name], Kids(h, obj)[k].child, below, added)
    ensures Reported(h, names, obj, before + Prefixed(k, below), reported + added)
  {
    hide Kids, Join;
    var kid := Kids(h, obj)[k];
    var all, reports := before + Prefixed(k, below), reported + added;
    forall i | 0 <= i < |all| ensures IsWalk(h, obj, all[i]) && reports[i] == Join(names + WalkNames(h, obj, all[i])) {
      if i >= |before| {
        var j := i - |before|;
        assert all[i] == [k] + below[j] && all[i][1..] == below[j];
        assert names + WalkNames(h, obj, all[i]) == names + [kid.name] + WalkNames(h, kid.child, below[j]);
      }
    }
  }

  class Validator {
    var res: seq<string>
    var ancestors: set<Ref>
    var names: seq<string>

    constructor ()
      ensures res == [] && ancestors == {} && names == []
    {
      res, ancestors, names := [], {}, [];
    }

    /**
     Appends one report for each lasso below `obj`, in the order of the walk, and restores the
     ancestors and names.
     */
    method Rec(h: Heap, obj: Ref) returns (ghost found: seq<seq<nat>>)
      requires GraphOk(h) && IsObject(h, obj) && names != []
      modifies this
      ensures ancestors == old(ancestors) && names == old(names)
      ensures FoundAll(h, ancestors, obj, found)
      ensures |old(res)| <= |res| && res[..|old(res)|] == old(res)
      ensures Reported(h, names, obj, found, res[|old(res)|..])
      decreases Unseen(h, ancestors)
    {
      hide Kids, IsLasso, FoundAll, FoundBelow, Reported, Unseen, GraphOk, Join, Prefixed;
      if obj in ancestors {
        var report := Render(names);
        res := res + [report];
        found := [[]];
        AtAncestor(h, ancestors, obj, names);
        assert res[|old(res)|..] == [report];
        return;
      }
      UnseenShrinks(h, ancestors, obj);
      ancestors := ancestors + {obj};
      found := [];
      assert res[|old(res)|..] == [];
      NothingFound(h, old(ancestors), obj, names);
      KidsOk(h, obj);
      var kids := EnumerateKids(h, obj);
      for k := 0 to |kids|
        invariant ancestors == old(ancestors) + {obj} && names == old(names)
        invariant FoundBelow(h, old(ancestors), obj, k, found)
        invariant |old(res)| <= |res| && res[..|old(res)|] == old(res)
        invariant Reported(h, names, obj, found, res[|old(res)|..])
      {
        ghost var before := res;
        names := names + [kids[k].name];
        ghost var below := Rec(h, kids[k].child);
        assert res[|old(res)|..] == before[|old(res)|..] + res[|before|..];
        names := names[..|names| - 1];
        MoreReports(h, names, obj, k, found, below, before[|old(res)|..], res[|before|..]);
        NextChild(h, old(ancestors), obj, k, found, below);
        found := found + Prefixed(k, below);
      }
      ancestors := ancestors - {obj};
      AllChildren(h, ancestors, obj, found);
    }
  }

  lemma AtAncestor(h: Heap, ancestors: set<Ref>, obj: Ref, names: seq<string>)
    requires obj in ancestors && IsObject(h, obj)
    ensures FoundAll(h, ancestors, obj, [[]])
    ensures Reported(h, names, obj, [[]], [Join(names)])
  {
    forall ks ensures ks in [[]] <==> IsLasso(h, ancestors, obj, ks) {
      LassoAtAncestor(h, ancestors, obj, ks);
    }
    assert names + [] == names;
  }

  lemma NothingFound(h: Heap, ancestors: set<Ref>, obj: Ref, names: seq<string>)
    ensures FoundBelow(h, ancestors, obj, 0, [])
    ensures Reported(h, names, obj, [], [])
  {
  }

  // ---------- cycles ----------

  /** Some walk from the object visits an object twice: a cycle can be reached. */
  ghost predicate ReachesCycle(h: Heap, obj: Ref) {
    exists ks :: Repeats(h, obj, ks)
  }

  ghost predicate Repeats(h: Heap, obj: Ref, ks: seq<nat>) {
    IsWalk(h, obj, ks) && var ns := Nodes(h, obj, ks); exists i, j :: 0 <= i < j < |ns| && ns[i] == ns[j]
  }

  lemma {:induction false} WalkPrefix(h: Heap, obj: Ref, ks: seq<nat>, n: nat)
    requires IsWalk(h, obj, ks) && n <= |ks|
    ensures IsWalk(h, obj, ks[..n]) && |Nodes(h, obj, ks)| == |ks| + 1
        && Nodes(h, obj, ks[..n]) == Nodes(h, obj, ks)[..n + 1]
    decreases n
  {
    NodesLength(h, obj, ks);
    if n > 0 {
      var child := Kids(h, obj)[ks[0]].child;
      assert ks[..n][1..] == ks[1..][..n - 1];
      WalkPrefix(h, child, ks[1..], n - 1);
    }
  }

  /** The first repetition on a walk closes a lasso. */
  lemma {:induction false} RepetitionHasLasso(h: Heap, obj: Ref, ks: seq<nat>) returns (lasso: seq<nat>)
    requires Repeats(h, obj, ks)
    ensures IsLasso(h, {}, obj, lasso)
    decreases |ks|
  {
    hide Kids;
    NodesLength(h, obj, ks);
    var n := |ks|;
    if n > 0 && Repeats(h, obj, ks[..n - 1]) {
      lasso := RepetitionHasLasso(h, obj, ks[..n - 1]);
    } else {
      lasso := ks;
      var ns := Nodes(h, obj, ks);
      if n > 0 {
        WalkPrefix(h, obj, ks, n - 1);
        assert NoDup(ns[..n]);
      }
      FirstRepetition(ns);
    }
  }

  lemma FirstRepetition(ns: seq<Ref>)
    requires ns != [] && NoDup(ns[..|ns| - 1]) && exists i, j :: 0 <= i < j < |ns| && ns[i] == ns[j]
    ensures Tail({}, ns)
  {
    var n := |ns| - 1;
    forall a, b | 0 <= a < b < n ensures ns[a] != ns[b] {
      assert ns[..n][a] == ns[a] && ns[..n][b] == ns[b];
    }
    var i, j :| 0 <= i < j < |ns| && ns[i] == ns[j];
    assert j == n && ns[n] == ns[..n][i];
  }

  lemma LassoRepeats(h: Heap, obj: Ref, ks: seq<nat>)
    requires IsLasso(h, {}, obj, ks)
    ensures ReachesCycle(h, obj)
  {
    var ns := Nodes(h, obj, ks);
    var n := |ns| - 1;
    var i :| 0 <= i < n && ns[i] == ns[n];
    assert Repeats(h, obj, ks);
  }

  /** There is a lasso exactly when a cycle can be reached. */
  lemma LassoIffCycle(h: Heap, obj: Ref)
    ensures (exists ks :: IsLasso(h, {}, obj, ks)) <==> ReachesCycle(h, obj)
  {
    if ReachesCycle(h, obj) {
      var ks :| Repeats(h, obj, ks);
      var lasso := RepetitionHasLasso(h, obj, ks);
    }
    forall ks | IsLasso(h, {}, obj, ks) ensures ReachesCycle(h, obj) {
      LassoRepeats(h, obj, ks);
    }
  }

  /**
   The validation of an object: nothing to report exactly when no cycle can be reached; otherwise
   the name paths of all lassos, each of them once.
   */
  method PyValidate(h: Heap, obj: Ref) returns (result: Option<seq<string>>, ghost found: seq<seq<nat>>)
    requires GraphOk(h) && IsObject(h, obj)
    ensures result.None? <==> !ReachesCycle(h, obj)
    ensures FoundAll(h, {}, obj, found)
    ensures result.Some? ==> Reported(h, ["<operand>"], obj, found, result.value)
  {
    hide GraphOk, ReachesCycle, IsLasso, Reported;
    var v := new Validator();
    v.names := v.names + ["<operand>"];
    assert v.names == ["<operand>"] && v.res == [];
    found := v.Rec(h, obj);
    assert v.res[0..] == v.res;
    LassoIffCycle(h, obj);
    ReportedLength(h, ["<operand>"], obj, found, v.res);
    if |v.res| > 0 {
      assert found[0] in found;
      result := Some(v.res);
    } else {
      assert found == [];
      result := None;
    }
  }

  lemma ReportedLength(h: Heap, names: seq<string>, obj: Ref, found: seq<seq<nat>>, reports: seq<string>)
    requires Reported(h, names, obj, found, reports)
    ensures |reports| == |found|
  {
  }
}

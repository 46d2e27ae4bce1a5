/** The cells that a copy is about, described by the members and containers of the classes. */
module Cells {
  import opened Basics
  import opened ObjectModel
  import opened Layout
  import opened Chains
  import opened References
  import opened CloneInvariant
  import opened CloneTheorem

  /** Objects each embedded in the one before by a persistent member, with their classes and places. */
  ghost predicate IsNest(ns: seq<Link>) {
    ns != [] && forall i | 0 <= i < |ns| - 1 :: Embeds(ns[i], ns[i + 1])
  }

  ghost predicate Embeds(o: Link, p: Link) {
    exists l, m :: HasMember(o, l, m) && m.varType == Root(p.cls) && p.at == l.at + m.offset
  }

  /** A persistent entry of one of the member tables of the object's chain. */
  ghost predicate HasMember(o: Link, l: Link, m: VarEntry) {
    l in Links(o.cls, o.at) && m in l.cls.members && m.persist
  }

  /** The container that a cast to the custom assignment interface finds: the first in the chain. */
  ghost predicate HasContainer(o: Link, l: Link) {
    exists i: nat ::
      var ls := Links(o.cls, o.at);
      && i < |ls| && ls[i] == l && !l.cls.container.NoContainer?
      && forall j | 0 <= j < i :: ls[j].cls.container.NoContainer?
  }

  /** What an object has to be copied itself, apart from the objects embedded in it. */
  ghost predicate Owns(o: Link, l: Leaf) {
    match l
    case ClassLeaf(at, cls) => o == Link(cls, at)
    case ValueLeaf(at) => exists c, m :: HasMember(o, c, m) && m.varType.Plain? && at == c.at + m.offset
    case PtrLeaf(at) => exists c, m :: HasMember(o, c, m) && m.varType.RootPtr? && at == c.at + m.offset
    case ListLeaf(at) => exists c :: HasContainer(o, c) && c.cls.container.ListContainer? && at == c.at
    case DictLeaf(at) => exists c :: HasContainer(o, c) && c.cls.container.DictContainer? && at == c.at
  }

  // ---------- one object ----------

  lemma {:induction false} TableLeafExactly(ms: seq<VarEntry>, at: int, l: Leaf)
    ensures l in TableLeaves(ms, at) <==> exists m :: m in ms && l in EntryLeaves(m, at)
  {
    hide EntryLeaves;
    if ms != [] {
      TableLeafExactly(ms[1..], at, l);
      assert TableLeaves(ms, at) == EntryLeaves(ms[0], at) + TableLeaves(ms[1..], at);
      forall m | m in ms && l in EntryLeaves(m, at) ensures l in TableLeaves(ms, at) {
        assert m == ms[0] || m in ms[1..];
      }
      if l in EntryLeaves(ms[0], at) { assert ms[0] in ms; }
      forall m | m in ms[1..] && l in EntryLeaves(m, at) ensures m in ms {}
    } else {
      assert TableLeaves(ms, at) == [];
    }
  }

  lemma {:induction false} ChainLeafExactly(cls: ClassInfo, at: int, l: Leaf)
    ensures l in ChainLeaves(cls, at) <==>
            exists c, m :: c in Links(cls, at) && m in c.cls.members && l in EntryLeaves(m, c.at)
  {
    hide EntryLeaves, TableLeaves, Links, IsChain;
    ChainRest(cls, at);
    TableLeafExactly(cls.members, at, l);
    assert Link(cls, at) in Links(cls, at);
    if cls.parent.Some? {
      ChainLeafExactly(cls.parent.value, at + cls.offsetToParent, l);
    }
  }

  function ContainerLeaf(c: Link): Leaf {
    if c.cls.container.ListContainer? then ListLeaf(c.at) else DictLeaf(c.at)
  }

  lemma {:induction false} CustomLeafExactly(cls: ClassInfo, at: int, l: Leaf)
    ensures l in CustomLeaves(cls, at) <==> exists c :: HasContainer(Link(cls, at), c) && l == ContainerLeaf(c)
  {
    hide Links, IsChain;
    ChainRest(cls, at);
    var o := Link(cls, at);
    var ls := Links(cls, at);
    if !cls.container.NoContainer? {
      assert ls[0] == o && HasContainer(o, o);
      forall c | HasContainer(o, c) ensures c == o {}
    } else if cls.parent.Some? {
      var p := Link(cls.parent.value, at + cls.offsetToParent);
      CustomLeafExactly(p.cls, p.at, l);
      forall c ensures HasContainer(o, c) <==> HasContainer(p, c) { ContainerBehind(o, p, c); }
    } else {
      forall c ensures !HasContainer(o, c) {}
    }
  }

  lemma ContainerBehind(o: Link, p: Link, c: Link)
    requires o.cls.container.NoContainer? && Links(o.cls, o.at) == [o] + Links(p.cls, p.at)
    ensures HasContainer(o, c) <==> HasContainer(p, c)
  {
    hide Links, IsChain;
    var ls, rest := Links(o.cls, o.at), Links(p.cls, p.at);
    if HasContainer(p, c) {
      var i: nat :| i < |rest| && rest[i] == c && !c.cls.container.NoContainer?
                    && forall j | 0 <= j < i :: rest[j].cls.container.NoContainer?;
      assert ls[i + 1] == c;
    }
    if HasContainer(o, c) {
      var i: nat :| i < |ls| && ls[i] == c && !c.cls.container.NoContainer?
                    && forall j | 0 <= j < i :: ls[j].cls.container.NoContainer?;
      assert rest[i - 1] == c;
      assert forall j | 0 <= j < i - 1 :: rest[j] == ls[j + 1];
    }
  }

  // ---------- an object with those embedded in it ----------

  lemma ObjectLeafSplit(cls: ClassInfo, at: int, l: Leaf)
    ensures l in ObjectLeaves(cls, at) <==>
            l == ClassLeaf(at, cls) || l in ChainLeaves(cls, at) || l in CustomLeaves(cls, at)
  {
  }

  lemma EntryLeafExactly(m: VarEntry, at: int, l: Leaf)
    ensures l in EntryLeaves(m, at) <==>
            m.persist && match m.varType
                         case Plain => l == ValueLeaf(at + m.offset)
                         case RootPtr => l == PtrLeaf(at + m.offset)
                         case Root(c) => l in ObjectLeaves(c, at + m.offset)
  {
    hide ObjectLeaves;
  }

  /** A leaf of an object is its own or that of an object embedded in it. */
  lemma LeafStep(o: Link, l: Leaf)
    ensures l in ObjectLeaves(o.cls, o.at) <==>
            Owns(o, l) || exists p :: Embeds(o, p) && l in ObjectLeaves(p.cls, p.at)
  {
    hide Links, IsChain, HasContainer, ObjectLeaves, EntryLeaves, ChainLeaves, CustomLeaves;
    ObjectLeafSplit(o.cls, o.at, l);
    ChainLeafExactly(o.cls, o.at, l);
    CustomLeafExactly(o.cls, o.at, l);
    forall c | HasContainer(o, c) ensures !c.cls.container.NoContainer? { ContainerKind(o, c); }
    if l in ChainLeaves(o.cls, o.at) {
      var c, m :| c in Links(o.cls, o.at) && m in c.cls.members && l in EntryLeaves(m, c.at);
      EntryLeafExactly(m, c.at, l);
      assert HasMember(o, c, m);
      if m.varType.Root? {
        var p := Link(m.varType.cls, c.at + m.offset);
        assert Embeds(o, p);
      }
    }
    forall p | Embeds(o, p) && l in ObjectLeaves(p.cls, p.at) ensures l in ChainLeaves(o.cls, o.at) {
      var c, m :| HasMember(o, c, m) && m.varType == Root(p.cls) && p.at == c.at + m.offset;
      EntryLeafExactly(m, c.at, l);
    }
    if Owns(o, l) { OwnedIsLeaf(o, l); }
  }

  lemma OwnedIsLeaf(o: Link, l: Leaf)
    requires Owns(o, l)
    ensures l in ObjectLeaves(o.cls, o.at)
  {
    hide Links, IsChain, HasContainer, ObjectLeaves, EntryLeaves, ChainLeaves, CustomLeaves;
    ObjectLeafSplit(o.cls, o.at, l);
    ChainLeafExactly(o.cls, o.at, l);
    CustomLeafExactly(o.cls, o.at, l);
    if l.ValueLeaf? || l.PtrLeaf? {
      var c, m :| HasMember(o, c, m) && l == (if m.varType.Plain? then ValueLeaf(c.at + m.offset)
                                              else PtrLeaf(c.at + m.offset)) && !m.varType.Root?;
      EntryLeafExactly(m, c.at, l);
    }
  }

  lemma EmbeddedSmaller(o: Link, p: Link)
    requires Embeds(o, p)
    ensures p.cls < o.cls
  {
    var l, m :| HasMember(o, l, m) && m.varType == Root(p.cls) && p.at == l.at + m.offset;
    LinkSmaller(o.cls, o.at, l);
  }

  lemma {:induction false} LinkSmaller(cls: ClassInfo, at: int, l: Link)
    requires l in Links(cls, at)
    ensures l.cls == cls || l.cls < cls
  {
    hide Links, IsChain;
    ChainRest(cls, at);
    if cls.parent.Some? && l in Links(cls.parent.value, at + cls.offsetToParent) {
      LinkSmaller(cls.parent.value, at + cls.offsetToParent, l);
    }
  }

  ghost predicate OwnedIn(o: Link, ns: seq<Link>, l: Leaf) {
    IsNest(ns) && ns[0] == o && Owns(ns[|ns| - 1], l)
  }

  lemma {:induction false} LeafHasOwner(o: Link, l: Leaf) returns (ns: seq<Link>)
    requires l in ObjectLeaves(o.cls, o.at)
    ensures OwnedIn(o, ns, l)
    decreases o.cls
  {
    hide ObjectLeaves, Owns, Embeds;
    LeafStep(o, l);
    if Owns(o, l) {
      ns := [o];
    } else {
      var p :| Embeds(o, p) && l in ObjectLeaves(p.cls, p.at);
      EmbeddedSmaller(o, p);
      var rest := LeafHasOwner(p, l);
      ns := [o] + rest;
      forall i | 0 <= i < |ns| - 1 ensures Embeds(ns[i], ns[i + 1]) {
        if i > 0 { assert Embeds(rest[i - 1], rest[i]); }
      }
    }
  }

  lemma {:induction false} OwnerHasLeaf(o: Link, ns: seq<Link>, l: Leaf)
    requires OwnedIn(o, ns, l)
    ensures l in ObjectLeaves(o.cls, o.at)
    decreases |ns|
  {
    hide ObjectLeaves, Owns, Embeds;
    LeafStep(o, l);
    if |ns| > 1 {
      var rest := ns[1..];
      forall i | 0 <= i < |rest| - 1 ensures Embeds(rest[i], rest[i + 1]) { assert Embeds(ns[i + 1], ns[i + 2]); }
      OwnerHasLeaf(ns[1], rest, l);
      assert Embeds(ns[0], ns[0 + 1]);
    }
  }

  /** The leaves of a class are what its instances, and the objects embedded in them, have to be copied. */
  lemma LeavesExactly(o: Link, l: Leaf)
    ensures l in ObjectLeaves(o.cls, o.at) <==> exists ns :: OwnedIn(o, ns, l)
  {
    hide ObjectLeaves, OwnedIn;
    if l in ObjectLeaves(o.cls, o.at) {
      var ns := LeafHasOwner(o, l);
    }
    forall ns | OwnedIn(o, ns, l) ensures l in ObjectLeaves(o.cls, o.at) {
      OwnerHasLeaf(o, ns, l);
    }
  }

  // ---------- references and clones ----------

  /** The object holds a reference in a persistent pointer member or in the container that is copied. */
  ghost predicate HoldsRef(b: Block, o: Link, r: Ref) {
    || (exists c, m :: HasMember(o, c, m) && m.varType.RootPtr? && c.at + m.offset in b.ptrs
                       && b.ptrs[c.at + m.offset] == r && r != Null)
    || (exists c :: HasContainer(o, c) && c.at in b.items && r in b.items[c.at])
  }

  /** One object leads to another if it, or an object embedded in it, holds a reference to it. */
  lemma EdgeExactly(h: Heap, a: Ref, r: Ref)
    ensures Edge(h, a, r) <==>
            IsHeapObject(h, a) &&
            exists ns :: IsNest(ns) && ns[0] == Link(ClassOf(h, a), 0) && HoldsRef(h[a.block], ns[|ns| - 1], r)
  {
    hide ObjectLeaves, HasMember, HasContainer, Embeds, LeafTarget, HoldsRef, Owns;
    if Edge(h, a, r) {
      var l :| l in ObjectLeaves(ClassOf(h, a), 0) && LeafTarget(h[a.block], l, r);
      LeavesExactly(Link(ClassOf(h, a), 0), l);
      var ns :| OwnedIn(Link(ClassOf(h, a), 0), ns, l);
      TargetHeld(h[a.block], ns[|ns| - 1], l, r);
    }
    if IsHeapObject(h, a) {
      forall ns | IsNest(ns) && ns[0] == Link(ClassOf(h, a), 0) && HoldsRef(h[a.block], ns[|ns| - 1], r)
        ensures Edge(h, a, r)
      {
        var l := HeldLeaf(h[a.block], ns[|ns| - 1], r);
        assert OwnedIn(Link(ClassOf(h, a), 0), ns, l);
        LeavesExactly(Link(ClassOf(h, a), 0), l);
      }
    }
  }

  lemma TargetHeld(b: Block, o: Link, l: Leaf, r: Ref)
    requires Owns(o, l) && LeafTarget(b, l, r)
    ensures HoldsRef(b, o, r)
  {
    hide HasMember, HasContainer;
  }

  lemma HeldLeaf(b: Block, o: Link, r: Ref) returns (l: Leaf)
    requires HoldsRef(b, o, r)
    ensures Owns(o, l) && LeafTarget(b, l, r)
  {
    hide HasMember, HasContainer;
    if c, m :| HasMember(o, c, m) && m.varType.RootPtr? && c.at + m.offset in b.ptrs
               && b.ptrs[c.at + m.offset] == r && r != Null {
      l := PtrLeaf(c.at + m.offset);
    } else {
      var c :| HasContainer(o, c) && c.at in b.items && r in b.items[c.at];
      l := ContainerLeaf(c);
      ContainerKind(o, c);
    }
  }

  lemma ContainerKind(o: Link, c: Link)
    requires HasContainer(o, c)
    ensures !c.cls.container.NoContainer?
  {
  }

  /** A reference in the clone is to the clone of what the reference in the original is to. */
  ghost predicate ImageOf(memo: map<Ref, Ref>, a: Ref, b: Ref) {
    if a == Null then b == Null else a in memo && b == memo[a]
  }

  /**
   An object and its counterpart in a clone: the same class, equal values and images of all references
   in persistent members, and in its container the images of the items, under the same keys.
   */
  ghost predicate SameObject(src: Block, dst: Block, memo: map<Ref, Ref>, o: Link) {
    && o.at in src.classes && o.at in dst.classes && src.classes[o.at] == o.cls && dst.classes[o.at] == o.cls
    && (forall c, m | HasMember(o, c, m) && m.varType.Plain? ::
          var x := c.at + m.offset; x in src.vals && x in dst.vals && dst.vals[x] == src.vals[x])
    && (forall c, m | HasMember(o, c, m) && m.varType.RootPtr? ::
          var x := c.at + m.offset; x in src.ptrs && x in dst.ptrs && ImageOf(memo, src.ptrs[x], dst.ptrs[x]))
    && (forall c | HasContainer(o, c) ::
          && c.at in src.items && c.at in dst.items && |dst.items[c.at]| == |src.items[c.at]|
          && (forall i | 0 <= i < |src.items[c.at]| :: ImageOf(memo, src.items[c.at][i], dst.items[c.at][i]))
          && (c.cls.container.DictContainer? ==>
                c.at in src.keys && c.at in dst.keys && dst.keys[c.at] == src.keys[c.at]))
  }

  /** In a clone every object, and every object embedded in one, is the same as in the original. */
  lemma ClonedCells(h0: Heap, root: Ref, h: Heap, memo: map<Ref, Ref>, dest: Ref, r: Ref, ns: seq<Link>)
    requires IsCloneOf(h0, root, h, memo, dest) && r in memo
    requires IsNest(ns) && IsHeapObject(h0, r) && ns[0] == Link(ClassOf(h0, r), 0)
    ensures IsHeapObject(h, memo[r]) && SameObject(h0[r.block], h[memo[r].block], memo, ns[|ns| - 1])
  {
    assert Cloned(h0, h, memo, r);
    hide IsCloneOf, ObjectLeaves, IsNest, HasMember, HasContainer;
    var o, src, dst := ns[|ns| - 1], h0[r.block], h[memo[r].block];
    forall l | Owns(o, l) ensures LeafMatches(src, dst, memo, l) {
      assert OwnedIn(ns[0], ns, l);
      LeavesExactly(ns[0], l);
    }
    OwnedSame(src, dst, memo, o);
  }

  lemma OwnedSame(src: Block, dst: Block, memo: map<Ref, Ref>, o: Link)
    requires forall l | Owns(o, l) :: LeafMatches(src, dst, memo, l)
    ensures SameObject(src, dst, memo, o)
  {
    hide HasMember, HasContainer;
    assert LeafMatches(src, dst, memo, ClassLeaf(o.at, o.cls)) by { assert Owns(o, ClassLeaf(o.at, o.cls)); }
    forall c, m | HasMember(o, c, m) && m.varType.Plain?
      ensures LeafMatches(src, dst, memo, ValueLeaf(c.at + m.offset))
    {
      assert Owns(o, ValueLeaf(c.at + m.offset));
    }
    forall c, m | HasMember(o, c, m) && m.varType.RootPtr?
      ensures LeafMatches(src, dst, memo, PtrLeaf(c.at + m.offset))
    {
      assert Owns(o, PtrLeaf(c.at + m.offset));
    }
    forall c | HasContainer(o, c) ensures LeafMatches(src, dst, memo, ContainerLeaf(c)) {
      ContainerKind(o, c);
      assert Owns(o, ContainerLeaf(c));
    }
  }

  /** A clone holds references in the cells that its class has copied, and in no other. */
  lemma ClonedNowhereElse(h0: Heap, root: Ref, h: Heap, memo: map<Ref, Ref>, dest: Ref, r: Ref, x: int)
    requires IsCloneOf(h0, root, h, memo, dest) && r in memo
    requires IsHeapObject(h0, r) && IsHeapObject(h, memo[r])
    ensures var b := h[memo[r].block]; var o := Link(ClassOf(h0, r), 0);
            && (x in b.ptrs && b.ptrs[x] != Null ==> exists ns :: OwnedIn(o, ns, PtrLeaf(x)))
            && (x in b.items && b.items[x] != [] ==>
                  exists ns :: OwnedIn(o, ns, ListLeaf(x)) || OwnedIn(o, ns, DictLeaf(x)))
  {
    assert Tidy(ClassOf(h0, r), h[memo[r].block]);
    hide IsCloneOf, ObjectLeaves, OwnedIn;
    var o := Link(ClassOf(h0, r), 0);
    LeavesExactly(o, PtrLeaf(x));
    LeavesExactly(o, ListLeaf(x));
    LeavesExactly(o, DictLeaf(x));
  }
}

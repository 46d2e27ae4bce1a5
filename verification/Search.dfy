/** The stack searches over the object graph: FindSingle and FindReference. */
module Search {
  import opened Basics
  import opened ObjectModel
  import opened Children
  import opened Chains

  // ---------- the set of objects seen, in hash buckets ----------

  const BUCKETS: nat := 1024

  class SeenObjectSet {
    const hash: Ref -> nat
    const buckets: array<seq<Ref>>
    ghost var objects: set<Ref>

    ghost predicate Valid()
      reads this, buckets
    {
      && buckets.Length == BUCKETS
      && forall r :: r in objects <==> r in buckets[hash(r) % BUCKETS]
    }

    constructor (hash: Ref -> nat)
      ensures Valid() && objects == {} && fresh(buckets)
    {
      this.hash := hash;
      buckets := new seq<Ref>[BUCKETS](_ => []);
      objects := {};
    }

    /** Adds an object; true when it was not there before. */
    method Visit(obj: Ref) returns (isNew: bool)
      requires Valid()
      modifies this, buckets
      ensures Valid() && isNew == (obj !in old(objects)) && objects == old(objects) + {obj}
    {
      var i := hash(obj) % BUCKETS;
      if obj !in buckets[i] {
        buckets[i] := buckets[i] + [obj];
        objects := objects + {obj};
        return true;
      }
      assert obj in objects;
      return false;
    }
  }

  // ---------- what is searched ----------

  function ToSet(s: seq<nat>): set<nat> { set c | c in s }

  predicate IsMatch(cls: ClassInfo, clsids: set<nat>) {
    cls.clsid in clsids || (cls.parent.Some? && IsMatch(cls.parent.value, clsids))
  }

  /** The class, or one of its parents up the chain, is one of those asked for. */
  ghost predicate IsA(cls: ClassInfo, clsids: set<nat>) {
    exists l :: l in Links(cls, 0) && l.cls.clsid in clsids
  }

  /** A class matches at any distance up its chain of parents, and in no other way. */
  lemma {:induction false} MatchExactly(cls: ClassInfo, at: int, clsids: set<nat>)
    ensures IsMatch(cls, clsids) <==> exists l :: l in Links(cls, at) && l.cls.clsid in clsids
  {
    hide Links, IsChain;
    ChainRest(cls, at);
    assert Link(cls, at) in Links(cls, at);
    if cls.parent.Some? {
      MatchExactly(cls.parent.value, at + cls.offsetToParent, clsids);
    }
  }

  lemma AllMatchExactly(clsids: set<nat>)
    ensures forall cls :: IsMatch(cls, clsids) <==> IsA(cls, clsids)
  {
    hide IsMatch;
    forall cls ensures IsMatch(cls, clsids) <==> IsA(cls, clsids) {
      MatchExactly(cls, 0, clsids);
    }
  }

  method MatchesChain(cls: ClassInfo, clsids: seq<nat>) returns (r: bool)
    ensures r == IsMatch(cls, ToSet(clsids))
  {
    var t: Option<ClassInfo> := Some(cls);
    while t.Some?
      invariant IsMatch(cls, ToSet(clsids)) == (t.Some? && IsMatch(t.value, ToSet(clsids)))
      decreases t
    {
      for i := 0 to |clsids|
        invariant t.value.clsid !in clsids[..i]
      {
        if clsids[i] == t.value.clsid { return true; }
      }
      assert clsids[..|clsids|] == clsids;
      t := t.value.parent;
    }
    return false;
  }

  /** Which objects end the search below them. */
  datatype Query = Query(clsids: set<nat>, prune: bool, persistOnly: bool) {
    predicate Matches(h: Heap, r: Ref)
      requires IsObject(h, r)
    {
      IsMatch(ClassOf(h, r), clsids)
    }

    /** Whether the children of an object can be enumerated, if they are at all. */
    predicate Readable(h: Heap, r: Ref)
      requires IsObject(h, r)
    {
      (prune && Matches(h, r)) || Listed(h, r)
    }

    function Edges(h: Heap, r: Ref): seq<Edge>
      requires IsObject(h, r)
    {
      if prune && Matches(h, r) then [] else Children.Edges(h, r, persistOnly)
    }
  }

  ghost predicate Step(h: Heap, q: Query, a: Ref, b: Ref) {
    IsObject(h, a) && exists e :: e in q.Edges(h, a) && e.child == b
  }

  ghost predicate IsPath(h: Heap, q: Query, p: seq<Ref>) {
    p != [] && forall i | 0 <= i < |p| - 1 :: Step(h, q, p[i], p[i + 1])
  }

  /** `b` is found from `a` in `n` steps. */
  ghost predicate ReachesIn(h: Heap, q: Query, a: Ref, b: Ref, n: nat) {
    exists p :: IsPath(h, q, p) && |p| == n + 1 && p[0] == a && p[n] == b
  }

  ghost predicate Reaches(h: Heap, q: Query, a: Ref, b: Ref) {
    exists n: nat :: ReachesIn(h, q, a, b, n)
  }

  lemma ReachesNone(h: Heap, q: Query, a: Ref)
    ensures ReachesIn(h, q, a, a, 0)
  {
    assert IsPath(h, q, [a]);
  }

  lemma ReachesOneMore(h: Heap, q: Query, a: Ref, b: Ref, c: Ref, n: nat)
    requires ReachesIn(h, q, a, b, n) && Step(h, q, b, c)
    ensures ReachesIn(h, q, a, c, n + 1)
  {
    var p :| IsPath(h, q, p) && |p| == n + 1 && p[0] == a && p[n] == b;
    var r := p + [c];
    assert IsPath(h, q, r) by {
      forall i | 0 <= i < |r| - 1 ensures Step(h, q, r[i], r[i + 1]) {
        if i < n { assert Step(h, q, p[i], p[i + 1]); }
      }
    }
  }

  /** Embedded objects form a forest of which `owner` knows the edges; no pointer leads into it. */
  ghost predicate Forest(h: Heap, owner: map<Ref, (Ref, nat)>, persistOnly: bool) {
    forall r, i | IsObject(h, r) && 0 <= i < |Children.Edges(h, r, persistOnly)| ::
      var e := Children.Edges(h, r, persistOnly)[i];
      if e.Embedded() then e.child in owner && owner[e.child] == (r, i) else e.child !in owner
  }

  // ---------- the search state ----------

  datatype Entry = Entry(obj: Ref, level: nat, check: bool)

  /** What is still on the stack, what the seen set holds, and the objects processed so far, in order. */
  datatype State = State(stack: seq<Entry>, seen: set<Ref>, order: seq<Ref>)

  function EntryFor(e: Edge, level: nat): Entry {
    Entry(e.child, level, !e.Embedded())
  }

  function Pushed(es: seq<Edge>, level: nat): (r: seq<Entry>)
    ensures |r| == |es| && forall i | 0 <= i < |es| :: r[i] == EntryFor(es[i], level)
  {
    seq(|es|, i requires 0 <= i < |es| => EntryFor(es[i], level))
  }

  predicate Deep(maxLevel: int, level: nat) {
    maxLevel >= 0 && level >= maxLevel
  }

  /** The top entry is thrown away. */
  function Dropped(s: State): State
    requires s.stack != []
  {
    s.(stack := s.stack[..|s.stack| - 1])
  }

  /** The top entry is processed and, unless it is too deep, its children are pushed. */
  function Processed(h: Heap, q: Query, maxLevel: int, s: State): State
    requires s.stack != [] && IsObject(h, s.stack[|s.stack| - 1].obj)
  {
    var e := s.stack[|s.stack| - 1];
    State(
      s.stack[..|s.stack| - 1] + (if Deep(maxLevel, e.level) then [] else Pushed(q.Edges(h, e.obj), e.level + 1)),
      if e.check then s.seen + {e.obj} else s.seen,
      s.order + [e.obj])
  }

  function Top(s: State): Entry
    requires s.stack != []
  {
    s.stack[|s.stack| - 1]
  }

  lemma PushedShape(below: seq<Entry>, es: seq<Edge>, level: nat)
    ensures var r := below + Pushed(es, level);
            && |r| == |below| + |es| && r[..|below|] == below
            && (forall i | 0 <= i < |below| :: r[i] == below[i])
            && (forall i | |below| <= i < |r| :: r[i] == EntryFor(es[i - |below|], level))
  {
  }

  lemma Below(stack: seq<Entry>)
    requires stack != []
    ensures var b := stack[..|stack| - 1]; |b| == |stack| - 1 && forall i | 0 <= i < |b| :: b[i] == stack[i]
  {
  }

  /** The entries below the top stay; above them are the children, in order. */
  lemma ProcessedShape(h: Heap, q: Query, maxLevel: int, s: State)
    requires s.stack != [] && IsObject(h, Top(s).obj)
    ensures var t := Processed(h, q, maxLevel, s);
            && t.order == s.order + [Top(s).obj]
            && t.seen == (if Top(s).check then s.seen + {Top(s).obj} else s.seen)
            && |t.stack| == |s.stack| - 1
                            + (if Deep(maxLevel, Top(s).level) then 0 else |q.Edges(h, Top(s).obj)|)
            && t.stack[..|s.stack| - 1] == s.stack[..|s.stack| - 1]
            && (forall i | 0 <= i < |s.stack| - 1 :: t.stack[i] == s.stack[i])
            && (forall i | |s.stack| - 1 <= i < |t.stack| ::
                  t.stack[i] == EntryFor(q.Edges(h, Top(s).obj)[i - (|s.stack| - 1)], Top(s).level + 1))
  {
    hide Children.Edges, IsMatch, Pushed, EntryFor, Query.Edges;
    var below := s.stack[..|s.stack| - 1];
    Below(s.stack);
    PushedShape(below, q.Edges(h, Top(s).obj), Top(s).level + 1);
    assert below + [] == below;
  }

  // ---------- soundness ----------

  ghost predicate Sound(h: Heap, q: Query, root: Ref, maxLevel: int, s: State) {
    && (forall e | e in s.stack ::
          IsObject(h, e.obj) && ReachesIn(h, q, root, e.obj, e.level)
          && (maxLevel >= 0 ==> e.level <= maxLevel))
    && (forall x | x in s.order :: IsObject(h, x) && exists n: nat ::
          ReachesIn(h, q, root, x, n)
          && (maxLevel >= 0 ==> n <= maxLevel))
    && (forall x | x in s.seen :: x in s.order)
  }

  lemma EdgeIsStep(h: Heap, q: Query, r: Ref, e: Edge)
    requires GraphOk(h) && IsObject(h, r) && e in q.Edges(h, r)
    ensures IsObject(h, e.child) && Step(h, q, r, e.child)
  {
    EdgesOk(h, r, q.persistOnly);
  }

  lemma SoundProcessed(h: Heap, q: Query, root: Ref, maxLevel: int, s: State)
    requires GraphOk(h) && Sound(h, q, root, maxLevel, s) && s.stack != []
    ensures Sound(h, q, root, maxLevel, Processed(h, q, maxLevel, s))
  {
    hide GraphOk, ReachesIn, Step, Processed, Children.Edges, IsMatch;
    var e := Top(s);
    var t := Processed(h, q, maxLevel, s);
    var n := |s.stack| - 1;
    assert e in s.stack;
    ProcessedShape(h, q, maxLevel, s);
    forall f | f in t.stack
      ensures IsObject(h, f.obj) && ReachesIn(h, q, root, f.obj, f.level) && (maxLevel >= 0 ==> f.level <= maxLevel)
    {
      var i :| 0 <= i < |t.stack| && t.stack[i] == f;
      if i < n {
        assert s.stack[i] in s.stack;
      } else {
        var edge := q.Edges(h, e.obj)[i - n];
        EdgeIsStep(h, q, e.obj, edge);
        ReachesOneMore(h, q, root, e.obj, edge.child, e.level);
      }
    }
  }

  // ---------- completeness ----------

  ghost predicate OnStack(s: State, x: Ref) {
    exists i :: 0 <= i < |s.stack| && s.stack[i].obj == x
  }

  /** Whether the search may go on from an object. */
  ghost predicate Shallow(h: Heap, q: Query, root: Ref, maxLevel: int, x: Ref) {
    maxLevel < 0 || exists n: nat :: n < maxLevel && ReachesIn(h, q, root, x, n)
  }

  /** All ways from the root to an object are equally long. */
  ghost predicate OneLevel(h: Heap, q: Query, root: Ref) {
    forall x, n: nat, m: nat | ReachesIn(h, q, root, x, n) && ReachesIn(h, q, root, x, m) :: n == m
  }

  /** Whatever a processed object leads to is processed or waiting, unless it is too deep. */
  ghost predicate Complete(h: Heap, q: Query, root: Ref, maxLevel: int, s: State) {
    && (root in s.order || OnStack(s, root))
    && (forall x, e | x in s.order && IsObject(h, x) && Shallow(h, q, root, maxLevel, x) && e in q.Edges(h, x) ::
          e.child in s.order || OnStack(s, e.child))
  }

  lemma StillOnStack(h: Heap, q: Query, s: State, t: State, x: Ref)
    requires s.stack != [] && |t.stack| >= |s.stack| - 1 && t.stack[..|s.stack| - 1] == s.stack[..|s.stack| - 1]
    requires OnStack(s, x)
    ensures x == Top(s).obj || OnStack(t, x)
  {
    var i :| 0 <= i < |s.stack| && s.stack[i].obj == x;
    if i < |s.stack| - 1 {
      assert t.stack[i] == t.stack[..|s.stack| - 1][i] == s.stack[i];
    }
  }

  lemma CompleteDropped(h: Heap, q: Query, root: Ref, maxLevel: int, s: State)
    requires Complete(h, q, root, maxLevel, s) && s.stack != [] && Top(s).obj in s.order
    ensures Complete(h, q, root, maxLevel, Dropped(s))
  {
    hide OnStack, Shallow;
    var t := Dropped(s);
    if root !in s.order { StillOnStack(h, q, s, t, root); }
    forall x, e | x in t.order && IsObject(h, x) && Shallow(h, q, root, maxLevel, x) && e in q.Edges(h, x)
      ensures e.child in t.order || OnStack(t, e.child)
    {
      if e.child !in t.order { StillOnStack(h, q, s, t, e.child); }
    }
  }

  lemma CompleteProcessed(h: Heap, q: Query, root: Ref, maxLevel: int, s: State)
    requires Complete(h, q, root, maxLevel, s) && s.stack != [] && IsObject(h, Top(s).obj)
    requires Shallow(h, q, root, maxLevel, Top(s).obj) ==> !Deep(maxLevel, Top(s).level)
    ensures Complete(h, q, root, maxLevel, Processed(h, q, maxLevel, s))
  {
    hide Processed, Children.Edges, IsMatch, OnStack, Shallow, Deep;
    var t := Processed(h, q, maxLevel, s);
    ProcessedShape(h, q, maxLevel, s);
    if root !in t.order { StillOnStack(h, q, s, t, root); }
    forall x, e | x in t.order && IsObject(h, x) && Shallow(h, q, root, maxLevel, x) && e in q.Edges(h, x)
      ensures e.child in t.order || OnStack(t, e.child)
    {
      if x in s.order {
        if e.child !in t.order { StillOnStack(h, q, s, t, e.child); }
      } else {
        ChildOnStack(h, q, maxLevel, s, e);
      }
    }
  }

  lemma ChildOnStack(h: Heap, q: Query, maxLevel: int, s: State, e: Edge)
    requires s.stack != [] && IsObject(h, Top(s).obj) && e in q.Edges(h, Top(s).obj) && !Deep(maxLevel, Top(s).level)
    ensures OnStack(Processed(h, q, maxLevel, s), e.child)
  {
    hide Processed, Children.Edges, IsMatch, Deep;
    ProcessedShape(h, q, maxLevel, s);
    var es := q.Edges(h, Top(s).obj);
    var i :| 0 <= i < |es| && es[i] == e;
    assert Processed(h, q, maxLevel, s).stack[|s.stack| - 1 + i].obj == e.child;
  }

  /** With equally long ways, the level of an entry says whether its object is too deep. */
  lemma LevelDecides(h: Heap, q: Query, root: Ref, maxLevel: int, s: State)
    requires Sound(h, q, root, maxLevel, s) && s.stack != [] && (maxLevel < 0 || OneLevel(h, q, root))
    ensures Shallow(h, q, root, maxLevel, Top(s).obj) <==> !Deep(maxLevel, Top(s).level)
  {
    hide ReachesIn;
    assert Top(s) in s.stack;
  }

  lemma {:induction false} ReachedProcessed(h: Heap, q: Query, root: Ref, maxLevel: int, s: State, p: seq<Ref>)
    requires Complete(h, q, root, maxLevel, s) && s.stack == [] && IsPath(h, q, p) && p[0] == root
    requires maxLevel >= 0 ==> |p| - 1 <= maxLevel
    ensures p[|p| - 1] in s.order
  {
    if |p| > 1 {
      var r := p[..|p| - 1];
      assert IsPath(h, q, r) by {
        forall i | 0 <= i < |r| - 1 ensures Step(h, q, r[i], r[i + 1]) {
          assert Step(h, q, p[i], p[i + 1]);
        }
      }
      ReachedProcessed(h, q, root, maxLevel, s, r);
      assert ReachesIn(h, q, root, p[|p| - 2], |p| - 2);
      assert Step(h, q, p[|p| - 2], p[|p| - 1]);
    }
  }

  // ---------- no object twice ----------

  /** An object embedded somewhere is processed or waiting only after its owner was processed. */
  ghost predicate Once(h: Heap, q: Query, owner: map<Ref, (Ref, nat)>, s: State) {
    && NoDup(s.order)
    && (forall x | x in s.order :: x in s.seen || x in owner)
    && (forall x | x in s.order && x in owner :: owner[x].0 in s.order)
    && (forall i | 0 <= i < |s.stack| :: s.stack[i].check <==> s.stack[i].obj !in owner)
    && (forall i | 0 <= i < |s.stack| && !s.stack[i].check ::
          s.stack[i].obj !in s.order
          && owner[s.stack[i].obj].0 in s.order)
    && (forall i, j | 0 <= i < j < |s.stack| && !s.stack[i].check :: s.stack[i].obj != s.stack[j].obj)
  }

  lemma OnceDropped(h: Heap, q: Query, owner: map<Ref, (Ref, nat)>, s: State)
    requires Once(h, q, owner, s) && s.stack != []
    ensures Once(h, q, owner, Dropped(s))
  {
  }

  lemma OnceProcessed(h: Heap, q: Query, owner: map<Ref, (Ref, nat)>, maxLevel: int, s: State)
    requires Forest(h, owner, q.persistOnly) && Once(h, q, owner, s) && s.stack != []
    requires IsObject(h, Top(s).obj) && (Top(s).check ==> Top(s).obj !in s.seen)
    requires forall x | x in s.seen :: x in s.order
    ensures Once(h, q, owner, Processed(h, q, maxLevel, s))
  {
    hide Processed, Children.Edges, IsMatch;
    var e := Top(s);
    var t := Processed(h, q, maxLevel, s);
    ProcessedShape(h, q, maxLevel, s);
    var n := |s.stack| - 1;
    assert e.obj !in s.order;
    var es := q.Edges(h, e.obj);
    forall i | 0 <= i < |es|
      ensures if es[i].Embedded() then es[i].child in owner
          && owner[es[i].child] == (e.obj, i) else es[i].child !in owner
    {
      assert es[i] == Children.Edges(h, e.obj, q.persistOnly)[i];
    }
    forall i | 0 <= i < |t.stack|
      ensures t.stack[i].check <==> t.stack[i].obj !in owner
      ensures !t.stack[i].check ==> t.stack[i].obj !in t.order && owner[t.stack[i].obj].0 in t.order
    {
      if i < n { assert t.stack[i] == s.stack[i]; } else { assert t.stack[i] == EntryFor(es[i - n], e.level + 1); }
    }
    forall i, j | 0 <= i < j < |t.stack| && !t.stack[i].check ensures t.stack[i].obj != t.stack[j].obj {
      if j < n { assert t.stack[i] == s.stack[i] && t.stack[j] == s.stack[j]; }
    }
  }

  // ---------- termination ----------

  ghost function Unseen(h: Heap, seen: set<Ref>): set<Ref> {
    set b, o | b in h && o in h[b].classes && At(b, o) !in seen :: At(b, o)
  }

  ghost predicate Objects(h: Heap, stack: seq<Entry>) {
    forall i | 0 <= i < |stack| :: IsObject(h, stack[i].obj)
  }

  /** What the entries that bypass the seen set can still push. */
  ghost function StackWeight(h: Heap, stack: seq<Entry>): nat
    requires Objects(h, stack)
  {
    if stack == [] then 0 else
      var e := stack[|stack| - 1];
      StackWeight(h, stack[..|stack| - 1]) + (if e.check then 0 else Weight(ClassOf(h, e.obj)))
  }

  lemma {:induction false} StackWeightPushed(h: Heap, stack: seq<Entry>, es: seq<Edge>, level: nat)
    requires Objects(h, stack) && forall e | e in es :: IsObject(h, e.child)
    ensures Objects(h, stack + Pushed(es, level))
    ensures StackWeight(h, stack + Pushed(es, level)) == StackWeight(h, stack) + EmbeddedWeight(h, es)
  {
    hide Weight;
    if es == [] {
      assert stack + Pushed(es, level) == stack;
    } else {
      var front, last := es[..|es| - 1], es[|es| - 1];
      StackWeightPushed(h, stack, front, level);
      assert Pushed(es, level) == Pushed(front, level) + [EntryFor(last, level)];
      var all := stack + Pushed(es, level);
      assert all[..|all| - 1] == stack + Pushed(front, level);
    }
  }

  lemma UnseenShrinks(h: Heap, seen: set<Ref>, r: Ref)
    requires IsObject(h, r) && r !in seen
    ensures Unseen(h, seen + {r}) < Unseen(h, seen)
  {
    assert r in Unseen(h, seen);
  }

  lemma WeightDropped(h: Heap, stack: seq<Entry>)
    requires stack != [] && Objects(h, stack)
    ensures Objects(h, stack[..|stack| - 1])
    ensures StackWeight(h, stack[..|stack| - 1]) + (if stack[|stack| - 1].check then 0 else 1) <= StackWeight(h, stack)
  {
  }

  /** Processing an embedded object replaces its weight by that of the objects embedded in it. */
  lemma WeightProcessed(h: Heap, q: Query, maxLevel: int, s: State)
    requires GraphOk(h) && Objects(h, s.stack) && s.stack != []
    ensures Objects(h, Processed(h, q, maxLevel, s).stack)
    ensures !Top(s).check ==> StackWeight(h, Processed(h, q, maxLevel, s).stack) < StackWeight(h, s.stack)
  {
    hide GraphOk, Weight, EmbeddedWeight, Children.Edges, IsMatch, Pushed;
    var e := Top(s);
    var es := q.Edges(h, e.obj);
    var below := s.stack[..|s.stack| - 1];
    QueryEdgesOk(h, q, e.obj);
    StackWeightPushed(h, below, es, e.level + 1);
    assert below + [] == below;
  }

  lemma QueryEdgesOk(h: Heap, q: Query, r: Ref)
    requires GraphOk(h) && IsObject(h, r)
    ensures forall e | e in q.Edges(h, r) :: IsObject(h, e.child)
    ensures EmbeddedWeight(h, q.Edges(h, r)) < Weight(ClassOf(h, r))
  {
    hide GraphOk, Weight, EmbeddedWeight, Children.Edges, IsMatch;
    EdgesOk(h, r, q.persistOnly);
    NoWeight(h);
  }

  // ---------- FindSingle ----------

  /** An object that a search from `root` gets to, but whose children it cannot enumerate. */
  ghost predicate Gap(h: Heap, q: Query, root: Ref, x: Ref) {
    IsObject(h, x) && Reaches(h, q, root, x) && !q.Readable(h, x)
  }

  /** One that a search gets to within its depth limit. */
  ghost predicate GapWithin(h: Heap, q: Query, root: Ref, maxLevel: int, x: Ref) {
    Gap(h, q, root, x) && Shallow(h, q, root, maxLevel, x)
  }

  ghost predicate AllReadable(h: Heap, q: Query, root: Ref, maxLevel: int, order: seq<Ref>) {
    forall x | x in order && IsObject(h, x) && Shallow(h, q, root, maxLevel, x) :: q.Readable(h, x)
  }

  lemma TopIsGap(h: Heap, q: Query, root: Ref, owner: map<Ref, (Ref, nat)>, maxLevel: int, s: State)
    requires Running(h, q, root, owner, maxLevel, s) && s.stack != [] && IsObject(h, Top(s).obj)
    requires !q.Readable(h, Top(s).obj) && !Deep(maxLevel, Top(s).level)
    ensures GapWithin(h, q, root, maxLevel, Top(s).obj)
  {
    assert Top(s) in s.stack;
    assert ReachesIn(h, q, root, Top(s).obj, Top(s).level);
  }

  lemma NoGap(h: Heap, q: Query, root: Ref, owner: map<Ref, (Ref, nat)>, maxLevel: int, s: State)
    requires s.stack == [] && Running(h, q, root, owner, maxLevel, s) && AllReadable(h, q, root, maxLevel, s.order)
    requires maxLevel < 0 || OneLevel(h, q, root)
    ensures forall x :: !GapWithin(h, q, root, maxLevel, x)
  {
    hide Query.Readable, OneLevel;
    forall x | GapWithin(h, q, root, maxLevel, x) ensures false {
      var n: nat :| ReachesIn(h, q, root, x, n) && (maxLevel >= 0 ==> n < maxLevel);
      var p :| IsPath(h, q, p) && |p| == n + 1 && p[0] == root && p[n] == x;
      ReachedProcessed(h, q, root, maxLevel, s, p);
    }
  }

  function Matching(h: Heap, q: Query, order: seq<Ref>): seq<Ref>
    requires forall x | x in order :: IsObject(h, x)
  {
    if order == [] then [] else
      var x := order[|order| - 1];
      Matching(h, q, order[..|order| - 1]) + (if q.Matches(h, x) then [x] else [])
  }

  lemma {:induction false} MatchingIs(h: Heap, q: Query, order: seq<Ref>)
    requires forall x | x in order :: IsObject(h, x)
    ensures forall x :: x in Matching(h, q, order) <==> x in order && q.Matches(h, x)
    ensures NoDup(order) ==> NoDup(Matching(h, q, order))
  {
    if order != [] {
      var front := order[..|order| - 1];
      MatchingIs(h, q, front);
      assert order == front + [order[|order| - 1]];
    }
  }

  /** What the loop keeps. */
  ghost predicate Running(h: Heap, q: Query, root: Ref, owner: map<Ref, (Ref, nat)>, maxLevel: int, s: State) {
    && Sound(h, q, root, maxLevel, s)
    && (maxLevel < 0 || OneLevel(h, q, root) ==> Complete(h, q, root, maxLevel, s))
    && (Forest(h, owner, q.persistOnly) && root !in owner ==> Once(h, q, owner, s))
  }

  lemma RunningStarts(h: Heap, q: Query, root: Ref, owner: map<Ref, (Ref, nat)>, maxLevel: int)
    requires IsObject(h, root)
    ensures Running(h, q, root, owner, maxLevel, State([Entry(root, 0, true)], {}, []))
    ensures Objects(h, [Entry(root, 0, true)])
  {
    ReachesNone(h, q, root);
    assert OnStack(State([Entry(root, 0, true)], {}, []), root) by {
      assert State([Entry(root, 0, true)], {}, []).stack[0].obj == root;
    }
  }

  lemma SoundFacts(h: Heap, q: Query, root: Ref, maxLevel: int, s: State)
    requires Sound(h, q, root, maxLevel, s)
    ensures Objects(h, s.stack)
    ensures forall x | x in s.order :: IsObject(h, x)
    ensures forall x | x in s.seen :: x in s.order
  {
  }

  lemma RunningFacts(h: Heap, q: Query, root: Ref, owner: map<Ref, (Ref, nat)>, maxLevel: int, s: State)
    requires Running(h, q, root, owner, maxLevel, s)
    ensures Objects(h, s.stack) && forall x | x in s.order :: IsObject(h, x)
  {
    SoundFacts(h, q, root, maxLevel, s);
  }

  lemma SoundDropped(h: Heap, q: Query, root: Ref, maxLevel: int, s: State)
    requires Sound(h, q, root, maxLevel, s) && s.stack != []
    ensures Sound(h, q, root, maxLevel, Dropped(s))
    ensures Objects(h, s.stack) && Objects(h, Dropped(s).stack)
    ensures forall x | x in s.seen :: x in s.order
  {
  }

  /** An object seen before is dropped: the stack gets shorter, and no heavier. */
  lemma RunningDropped(h: Heap, q: Query, root: Ref, owner: map<Ref, (Ref, nat)>, maxLevel: int, s: State)
    requires Running(h, q, root, owner, maxLevel, s) && s.stack != [] && Top(s).obj in s.seen
    ensures Running(h, q, root, owner, maxLevel, Dropped(s))
    ensures Objects(h, s.stack) && Objects(h, Dropped(s).stack)
    ensures StackWeight(h, Dropped(s).stack) <= StackWeight(h, s.stack)
  {
    hide Sound, Complete, Once, Forest, StackWeight;
    SoundDropped(h, q, root, maxLevel, s);
    if maxLevel < 0 || OneLevel(h, q, root) { CompleteDropped(h, q, root, maxLevel, s); }
    if Once(h, q, owner, s) { OnceDropped(h, q, owner, s); }
    WeightDropped(h, s.stack);
  }

  /** A new object is processed: fewer objects are unseen, or the stack gets lighter. */
  lemma RunningProcessed(h: Heap, q: Query, root: Ref, owner: map<Ref, (Ref, nat)>, maxLevel: int, s: State)
    requires GraphOk(h) && Running(h, q, root, owner, maxLevel, s) && s.stack != []
    requires Top(s).check ==> Top(s).obj !in s.seen
    ensures IsObject(h, Top(s).obj) && Objects(h, s.stack)
    ensures Running(h, q, root, owner, maxLevel, Processed(h, q, maxLevel, s))
    ensures Objects(h, Processed(h, q, maxLevel, s).stack)
    ensures Top(s).check ==> Unseen(h, Processed(h, q, maxLevel, s).seen) < Unseen(h, s.seen)
    ensures !Top(s).check ==>
              && Processed(h, q, maxLevel, s).seen == s.seen
              && StackWeight(h, Processed(h, q, maxLevel, s).stack) < StackWeight(h, s.stack)
  {
    SoundFacts(h, q, root, maxLevel, s);
    assert IsObject(h, s.stack[|s.stack| - 1].obj);
    hide Sound, Complete, Once, GraphOk, Forest, Unseen, StackWeight;
    SoundProcessed(h, q, root, maxLevel, s);
    if maxLevel < 0 || OneLevel(h, q, root) {
      LevelDecides(h, q, root, maxLevel, s);
      CompleteProcessed(h, q, root, maxLevel, s);
    }
    if Forest(h, owner, q.persistOnly) && root !in owner { OnceProcessed(h, q, owner, maxLevel, s); }
    WeightProcessed(h, q, maxLevel, s);
    if Top(s).check { UnseenShrinks(h, s.seen, Top(s).obj); }
  }

  lemma Appended(h: Heap, q: Query, order: seq<Ref>, x: Ref)
    requires forall y | y in order + [x] :: IsObject(h, y)
    ensures forall y | y in order :: y in order + [x]
    ensures x in order + [x]
    ensures Matching(h, q, order + [x]) == Matching(h, q, order) + (if q.Matches(h, x) then [x] else [])
  {
    assert (order + [x])[..|order + [x]| - 1] == order;
  }

  lemma FinishSearch(h: Heap, q: Query, root: Ref, maxLevel: int, s: State, owner: map<Ref, (Ref, nat)>)
    requires s.stack == [] && Running(h, q, root, owner, maxLevel, s)
    ensures forall x | x in s.order :: IsObject(h, x)
    ensures forall x | x in Matching(h, q, s.order) ::
              IsObject(h, x) && q.Matches(h, x) && exists n: nat ::
                    ReachesIn(h, q, root, x, n)
                    && (maxLevel >= 0 ==> n <= maxLevel)
    ensures maxLevel < 0 || OneLevel(h, q, root) ==>
              forall x, n: nat | IsObject(h, x) && q.Matches(h, x) && ReachesIn(h, q, root, x, n)
                && (maxLevel >= 0 ==> n <= maxLevel) :: x in Matching(h, q, s.order)
    ensures Forest(h, owner, q.persistOnly) && root !in owner ==> NoDup(Matching(h, q, s.order))
  {
    MatchingIs(h, q, s.order);
    if maxLevel < 0 || OneLevel(h, q, root) {
      forall x, n: nat | ReachesIn(h, q, root, x, n) && (maxLevel >= 0 ==> n <= maxLevel) ensures x in s.order {
        var p :| IsPath(h, q, p) && |p| == n + 1 && p[0] == root && p[n] == x;
        ReachedProcessed(h, q, root, maxLevel, s, p);
      }
    }
  }

  /** Looks at one object: whether it matches, and what to push for it. */
  method Examine(h: Heap, e: Entry, clsids: seq<nat>, maxLevel: int, prune: bool)
    returns (found: seq<Ref>, pushed: seq<Entry>, defined: bool)
    requires IsObject(h, e.obj)
    ensures defined <==> Deep(maxLevel, e.level) || Query(ToSet(clsids), prune, true).Readable(h, e.obj)
    ensures found == if IsMatch(ClassOf(h, e.obj), ToSet(clsids)) then [e.obj] else []
    ensures var q := Query(ToSet(clsids), prune, true);
            defined ==> pushed == if Deep(maxLevel, e.level) then [] else Pushed(q.Edges(h, e.obj), e.level + 1)
  {
    hide Listed;
    found, pushed, defined := [], [], true;
    assert Pushed([], e.level + 1) == [];
    var isMatch := MatchesChain(ClassOf(h, e.obj), clsids);
    if isMatch {
      found := [e.obj];
      if prune {
        return;
      }
    }
    if maxLevel >= 0 && e.level >= maxLevel {
      return;
    }
    var es;
    es, defined := EnumerateChildren(h, e.obj, true);
    pushed := Pushed(es, e.level + 1);
  }

  /**
   Depth-first search for objects of some classes. Every object found matches and can be reached
   within the depth limit; without a limit, or if all ways to an object are equally long, every match
   within the limit is found, and if no pointer leads to an embedded object, it is found once. The
   search is undefined only if it gets to an object with a dict that does not give a key for every item,
   and in those cases whenever there is one within the limit.
   */
  method FindSingle(h: Heap, hash: Ref -> nat, obj: Ref, clsids: seq<nat>, maxLevel: int, prune: bool,
          ghost owner: map<Ref, (Ref, nat)>)
    returns (result: seq<Ref>, defined: bool)
    requires GraphOk(h) && IsObject(h, obj)
    ensures !defined ==> exists x :: GapWithin(h, Query(ToSet(clsids), prune, true), obj, maxLevel, x)
    ensures defined && (maxLevel < 0 || OneLevel(h, Query(ToSet(clsids), prune, true), obj)) ==>
              forall x :: !GapWithin(h, Query(ToSet(clsids), prune, true), obj, maxLevel, x)
    ensures defined ==>
              forall x | x in result ::
                && IsObject(h, x) && IsA(ClassOf(h, x), ToSet(clsids))
                && exists n: nat :: ReachesIn(h, Query(ToSet(clsids), prune, true), obj, x, n)
                    && (maxLevel >= 0 ==> n <= maxLevel)
    ensures defined && (maxLevel < 0 || OneLevel(h, Query(ToSet(clsids), prune, true), obj)) ==>
              forall x, n: nat | IsObject(h, x) && IsA(ClassOf(h, x), ToSet(clsids))
                && ReachesIn(h, Query(ToSet(clsids), prune, true), obj, x, n)
                && (maxLevel >= 0 ==> n <= maxLevel) :: x in result
    ensures defined && Forest(h, owner, true) && obj !in owner ==> NoDup(result)
  {
    hide GraphOk, Forest, Reaches, ReachesIn, Running, StackWeight, Unseen, NoDup, Matching, Pushed, Deep, IsMatch,
         ToSet, Processed, Objects, Children.Edges, Step, Query.Readable, GapWithin, OneLevel, Shallow, IsA;
    ghost var q := Query(ToSet(clsids), prune, true);
    ghost var order: seq<Ref> := [];
    result := [];
    var seen := new SeenObjectSet(hash);
    var stack := [Entry(obj, 0, true)];
    RunningStarts(h, q, obj, owner, maxLevel);
    MatchingNone(h, q);
    while stack != []
      invariant seen.Valid() && fresh(seen) && fresh(seen.buckets)
      invariant Running(h, q, obj, owner, maxLevel, State(stack, seen.objects, order))
      invariant Objects(h, stack) && forall x | x in order :: IsObject(h, x)
      invariant result == Matching(h, q, order)
      invariant maxLevel < 0 || OneLevel(h, q, obj) ==> AllReadable(h, q, obj, maxLevel, order)
      decreases Unseen(h, seen.objects), StackWeight(h, stack), |stack|
    {
      ghost var s := State(stack, seen.objects, order);
      var e := stack[|stack| - 1];
      stack := stack[..|stack| - 1];
      var isNew := true;
      if e.check {
        isNew := seen.Visit(e.obj);
      }
      if isNew {
        RunningProcessed(h, q, obj, owner, maxLevel, s);
        var found, pushed, listed := Examine(h, e, clsids, maxLevel, prune);
        if !listed {
          TopIsGap(h, q, obj, owner, maxLevel, s);
          return result, false;
        }
        if maxLevel < 0 || OneLevel(h, q, obj) { ReadableDeeper(h, q, obj, owner, maxLevel, s); }
        stack := stack + pushed;
        result := result + found;
        order := order + [e.obj];
        ghost var t := State(stack, seen.objects, order);
        ProcessedIs(h, q, maxLevel, s, pushed, t);
        RunningFacts(h, q, obj, owner, maxLevel, t);
        Appended(h, q, s.order, e.obj);
      } else {
        assert seen.objects == s.seen;
        RunningDropped(h, q, obj, owner, maxLevel, s);
      }
    }
    FinishSearch(h, q, obj, maxLevel, State(stack, seen.objects, order), owner);
    if maxLevel < 0 || OneLevel(h, q, obj) {
      NoGap(h, q, obj, owner, maxLevel, State(stack, seen.objects, order));
    }
    AllMatchExactly(q.clsids);
    defined := true;
  }

  /** The top object is readable, or too deep to be read. */
  lemma ReadableDeeper(h: Heap, q: Query, root: Ref, owner: map<Ref, (Ref, nat)>, maxLevel: int, s: State)
    requires Running(h, q, root, owner, maxLevel, s) && (maxLevel < 0 || OneLevel(h, q, root)) && s.stack != []
    requires AllReadable(h, q, root, maxLevel, s.order) && IsObject(h, Top(s).obj)
    requires Deep(maxLevel, Top(s).level) || q.Readable(h, Top(s).obj)
    ensures AllReadable(h, q, root, maxLevel, s.order + [Top(s).obj])
  {
    hide Query.Readable, Shallow, Deep;
    LevelDecides(h, q, root, maxLevel, s);
  }

  lemma ProcessedIs(h: Heap, q: Query, maxLevel: int, s: State, pushed: seq<Entry>, t: State)
    requires s.stack != [] && IsObject(h, Top(s).obj)
    requires pushed == if Deep(maxLevel, Top(s).level) then [] else Pushed(q.Edges(h, Top(s).obj), Top(s).level + 1)
    requires t.stack == s.stack[..|s.stack| - 1] + pushed
    requires t.seen == if Top(s).check then s.seen + {Top(s).obj} else s.seen
    requires t.order == s.order + [Top(s).obj]
    ensures t == Processed(h, q, maxLevel, s)
  {
  }

  lemma MatchingNone(h: Heap, q: Query)
    ensures Matching(h, q, []) == []
  {
  }
}

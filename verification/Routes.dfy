/**
 The route enumerator. Processed and unprocessed entries share one stack and are told apart only
 by comparing an entry's level with the previous one.
 */
module Routes {
  import opened Basics
  import opened ObjectModel
  import opened Children
  import opened Search

  datatype RouteEntry = RouteEntry(obj: Ref, level: nat, parent: int, edge: Option<Edge>)

  /** An edge of the graph by its position: edge `index` of object `from`. */
  datatype Hop = Hop(from: Ref, index: nat)

  /** One leg of a route as it is reported. */
  datatype Leg = Leg(parent: Ref, edge: Edge)

  /**
   The loop's state. For the proof, `path` has the positions of the processed entries, `done` the
   hops processed, and `calls` those for which the operation was called.
   */
  datatype RouteState = RouteState(stack: seq<RouteEntry>, prevLevel: nat, seen: set<Ref>, path: seq<nat>,
      done: set<Hop>, calls: seq<Hop>)

  function E(h: Heap, r: Ref): seq<Edge>
    requires IsObject(h, r)
  {
    Edges(h, r, false)
  }

  ghost predicate IsHop(h: Heap, p: Hop) {
    IsObject(h, p.from) && p.index < |E(h, p.from)|
  }

  function HopChild(h: Heap, p: Hop): Ref
    requires IsHop(h, p)
  {
    E(h, p.from)[p.index].child
  }

  // ---------- reachability that avoids the target ----------

  ghost predicate Linked(h: Heap, x: Ref, y: Ref) {
    IsObject(h, x) && exists k :: 0 <= k < |E(h, x)| && E(h, x)[k].child == y
  }

  ghost predicate AvoidingPath(h: Heap, to: Ref, p: seq<Ref>) {
    && p != []
    && (forall i | 0 <= i < |p| :: IsObject(h, p[i]) && p[i] != to)
    && (forall i | 0 <= i < |p| - 1 :: Linked(h, p[i], p[i + 1]))
  }

  ghost predicate Avoiding(h: Heap, from: Ref, to: Ref, x: Ref) {
    exists p :: AvoidingPath(h, to, p) && p[0] == from && p[|p| - 1] == x
  }

  lemma AvoidingSelf(h: Heap, from: Ref, to: Ref)
    requires IsObject(h, from) && from != to
    ensures Avoiding(h, from, to, from)
  {
    assert AvoidingPath(h, to, [from]);
  }

  lemma AvoidingStep(h: Heap, from: Ref, to: Ref, p: Hop)
    requires Avoiding(h, from, to, p.from) && IsHop(h, p) && HopChild(h, p) != to && IsObject(h, HopChild(h, p))
    ensures Avoiding(h, from, to, HopChild(h, p))
  {
    var q :| AvoidingPath(h, to, q) && q[0] == from && q[|q| - 1] == p.from;
    var r := q + [HopChild(h, p)];
    assert E(h, p.from)[p.index].child == HopChild(h, p);
    assert Linked(h, p.from, HopChild(h, p));
    hide Linked, HopChild, IsHop;
    assert AvoidingPath(h, to, r) by {
      forall i | 0 <= i < |r| - 1 ensures Linked(h, r[i], r[i + 1]) {
        if i < |q| - 1 { assert Linked(h, q[i], q[i + 1]); }
      }
    }
  }

  // ---------- the shape of the stack ----------

  /** The processed entries, one per level from the root up, and what sits between them. */
  ghost predicate Shape(h: Heap, from: Ref, s: RouteState) {
    && |s.path| == s.prevLevel
    && (forall l | 0 <= l < |s.path| :: s.path[l] < |s.stack| && s.stack[s.path[l]].level == l)
    && (forall l, m | 0 <= l < m < |s.path| :: s.path[l] < s.path[m])
    && (|s.path| > 0 ==> s.path[0] == 0)
    && (|s.stack| > 0 ==> s.stack[0] == RouteEntry(from, 0, -1, None) && IsObject(h, from))
    && (forall i | 0 < i < |s.stack| :: EntryOk(h, s, i))
  }

  ghost predicate EntryOk(h: Heap, s: RouteState, i: nat)
    requires i < |s.stack|
  {
    var e := s.stack[i];
    && 1 <= e.level <= |s.path|
    && e.parent == s.path[e.level - 1] && e.parent < i
    && (e.level < |s.path| ==> i <= s.path[e.level])
    && e.parent < |s.stack| && IsObject(h, s.stack[e.parent].obj)
    && i - e.parent - 1 < |E(h, s.stack[e.parent].obj)|
    && e.edge == Some(E(h, s.stack[e.parent].obj)[i - e.parent - 1])
    && e.obj == e.edge.value.child && IsObject(h, e.obj)
  }

  /** The hop an entry stands for. */
  function HopOf(s: RouteState, i: nat): Hop
    requires 0 < i < |s.stack| && 0 <= s.stack[i].parent < i
  {
    Hop(s.stack[s.stack[i].parent].obj, i - s.stack[i].parent - 1)
  }

  /** Entry `i` waits to be processed. */
  ghost predicate Waiting(s: RouteState, i: nat)
    requires i < |s.stack|
  {
    s.stack[i].level >= |s.path| || i < s.path[s.stack[i].level]
  }

  lemma {:induction false} PathRoom(path: seq<nat>, n: nat, l: nat)
    requires l < |path| && (forall i | 0 <= i < |path| :: path[i] < n)
    requires forall i, j | 0 <= i < j < |path| :: path[i] < path[j]
    ensures |path| - l <= n - path[l]
    decreases |path| - l
  {
    if l + 1 < |path| {
      PathRoom(path, n, l + 1);
    }
  }

  /** The level comparison tells processed entries from waiting ones. */
  lemma LevelTest(h: Heap, from: Ref, s: RouteState)
    requires Shape(h, from, s) && s.stack != []
    ensures var e := s.stack[|s.stack| - 1];
            && (e.level < s.prevLevel <==> !Waiting(s, |s.stack| - 1))
            && (e.level < s.prevLevel ==> e.level == s.prevLevel - 1 && s.path[e.level] == |s.stack| - 1)
            && (e.level >= s.prevLevel ==> e.level == s.prevLevel)
  {
    var i := |s.stack| - 1;
    var e := s.stack[i];
    if i == 0 {
      if s.path != [] { PathRoom(s.path, 1, 0); }
    } else {
      assert EntryOk(h, s, i);
      if e.level < |s.path| { PathRoom(s.path, |s.stack|, e.level); }
    }
  }

  // ---------- what is known of the objects ----------

  /** Entries with others above them were expanded, each for the first time. */
  ghost predicate Expanded(to: Ref, s: RouteState) {
    && (forall l | 0 <= l < |s.path| && s.path[l] < |s.stack| - 1 ::
          s.stack[s.path[l]].obj in s.seen
          && s.stack[s.path[l]].obj != to)
    && (forall l, m | 0 <= l < m < |s.path| && s.path[l] < |s.stack| - 1 && s.path[m] < |s.stack| - 1 ::
        s.stack[s.path[l]].obj != s.stack[s.path[m]].obj)
  }

  ghost predicate HopWaits(s: RouteState, p: Hop) {
    exists i :: 0 < i < |s.stack| && Waiting(s, i) && 0 <= s.stack[i].parent < i && HopOf(s, i) == p
  }

  ghost predicate SeenOk(h: Heap, from: Ref, to: Ref, s: RouteState) {
    && (forall x | x in s.seen :: IsObject(h, x) && x != to && Avoiding(h, from, to, x))
    && if s.path == [] && s.stack != [] then s.seen == {} && |s.stack| == 1 else from in s.seen
  }

  ghost predicate DoneOk(h: Heap, to: Ref, seen: set<Ref>, done: set<Hop>) {
    forall p | p in done :: IsHop(h, p) && p.from in seen && (HopChild(h, p) == to || HopChild(h, p) in seen)
  }

  ghost predicate WaitingNew(s: RouteState) {
    forall i | 0 < i < |s.stack| && 0 <= s.stack[i].parent < i && Waiting(s, i) :: HopOf(s, i) !in s.done
  }

  /** Every hop of an expanded object is processed or waiting. */
  ghost predicate Covered(h: Heap, s: RouteState) {
    forall p | IsHop(h, p) && p.from in s.seen :: p in s.done || HopWaits(s, p)
  }

  ghost predicate CallsOk(h: Heap, to: Ref, done: set<Hop>, calls: seq<Hop>) {
    && NoDup(calls)
    && forall p :: p in calls <==> p in done && IsHop(h, p) && HopChild(h, p) == to
  }

  ghost predicate Counted(h: Heap, from: Ref, to: Ref, s: RouteState) {
    SeenOk(h, from, to, s) && DoneOk(h, to, s.seen, s.done) && WaitingNew(s) && Covered(h, s)
        && CallsOk(h, to, s.done, s.calls)
  }

  ghost predicate Inv(h: Heap, from: Ref, to: Ref, s: RouteState) {
    Shape(h, from, s) && Expanded(to, s) && Counted(h, from, to, s)
  }

  function Start(from: Ref): RouteState {
    RouteState([RouteEntry(from, 0, -1, None)], 0, {}, [], {}, [])
  }

  lemma Starts(h: Heap, from: Ref, to: Ref)
    requires IsObject(h, from) && from != to
    ensures Inv(h, from, to, Start(from))
  {
  }

  // ---------- popping a processed entry ----------

  function Popped(s: RouteState): RouteState
    requires s.stack != [] && s.path != []
  {
    s.(stack := s.stack[..|s.stack| - 1], prevLevel := s.stack[|s.stack| - 1].level, path := s.path[..|s.path| - 1])
  }

  lemma PoppedShape(h: Heap, from: Ref, s: RouteState)
    requires Shape(h, from, s) && s.stack != [] && s.stack[|s.stack| - 1].level < s.prevLevel
    ensures s.path != [] && Shape(h, from, Popped(s)) && (|s.path| == 1 ==> |s.stack| == 1)
    ensures forall i | 0 <= i < |s.stack| - 1 :: Waiting(Popped(s), i) <==> Waiting(s, i)
  {
    hide Edges;
    LevelTest(h, from, s);
    var t := Popped(s);
    forall i | 0 < i < |t.stack| ensures EntryOk(h, t, i) {
      assert EntryOk(h, s, i);
    }
    forall i | 0 <= i < |s.stack| - 1 ensures Waiting(t, i) <==> Waiting(s, i) {
      if i > 0 { assert EntryOk(h, s, i); }
    }
  }

  /** The entries that wait in `t` are those of `s` except possibly its last, with the same hops. */
  ghost predicate SameWaiting(s: RouteState, t: RouteState) {
    && |s.stack| - 1 <= |t.stack| && s.stack != []
    && (forall i | 0 <= i < |s.stack| - 1 :: t.stack[i] == s.stack[i])
    && (forall i | 0 <= i < |s.stack| - 1 :: Waiting(t, i) <==> Waiting(s, i))
    && (|t.stack| >= |s.stack| ==> !Waiting(t, |s.stack| - 1))
  }

  lemma SameHop(s: RouteState, t: RouteState, i: nat)
    requires SameWaiting(s, t) && 0 < i < |s.stack| - 1 && 0 <= s.stack[i].parent < i
    ensures HopOf(t, i) == HopOf(s, i)
  {
  }

  lemma StillWaits(s: RouteState, t: RouteState, p: Hop)
    requires SameWaiting(s, t) && HopWaits(s, p)
    ensures var i := |s.stack| - 1;
            HopWaits(t, p) || (i > 0 && Waiting(s, i) && 0 <= s.stack[i].parent < i && p == HopOf(s, i))
  {
    var i :| 0 < i < |s.stack| && Waiting(s, i) && 0 <= s.stack[i].parent < i && HopOf(s, i) == p;
    if i < |s.stack| - 1 {
      SameHop(s, t, i);
      assert HopOf(t, i) == p;
    }
  }

  lemma PoppedCounted(h: Heap, from: Ref, to: Ref, s: RouteState)
    requires Counted(h, from, to, s) && s.stack != [] && s.path != []
    requires !Waiting(s, |s.stack| - 1) && SameWaiting(s, Popped(s)) && (|s.path| == 1 ==> |s.stack| == 1)
    ensures Counted(h, from, to, Popped(s))
  {
    hide IsHop, HopChild, Avoiding, CallsOk, DoneOk, SeenOk;
    var t := Popped(s);
    assert Covered(h, t) by {
      forall p | IsHop(h, p) && p.from in t.seen ensures p in t.done || HopWaits(t, p) {
        if p !in s.done { StillWaits(s, t, p); }
      }
    }
    assert WaitingNew(t) by {
      forall i | 0 < i < |t.stack| && 0 <= t.stack[i].parent < i && Waiting(t, i) ensures HopOf(t, i) !in t.done {
        SameHop(s, t, i);
      }
    }
    assert SeenOk(h, from, to, t) by { SeenPopped(h, from, to, s); }
  }

  lemma SeenPopped(h: Heap, from: Ref, to: Ref, s: RouteState)
    requires SeenOk(h, from, to, s) && s.path != [] && s.stack != [] && (|s.path| == 1 ==> |s.stack| == 1)
    ensures SeenOk(h, from, to, Popped(s))
  {
  }

  lemma PoppedExpanded(to: Ref, s: RouteState)
    requires Expanded(to, s) && s.stack != [] && s.path != []
    ensures Expanded(to, Popped(s))
  {
  }

  lemma PoppedKeeps(h: Heap, from: Ref, to: Ref, s: RouteState)
    requires Inv(h, from, to, s) && s.stack != [] && s.stack[|s.stack| - 1].level < s.prevLevel
    ensures s.path != [] && Inv(h, from, to, Popped(s))
  {
    hide Shape, Expanded, Counted;
    LevelTest(h, from, s);
    PoppedShape(h, from, s);
    PoppedExpanded(to, s);
    assert SameWaiting(s, Popped(s));
    PoppedCounted(h, from, to, s);
  }

  // ---------- processing a waiting entry ----------

  /** The top entry is processed; it joins the path. */
  function Visited(s: RouteState): RouteState
    requires s.stack != []
  {
    var i := |s.stack| - 1;
    s.(prevLevel := s.stack[i].level + 1,
       path := s.path + [i],
       done := if i > 0 && 0 <= s.stack[i].parent < i then s.done + {HopOf(s, i)} else s.done)
  }

  /** The operation is called for an entry that holds the target. */
  function Called(s: RouteState): RouteState
    requires s.stack != [] && |s.stack| > 1 && 0 <= s.stack[|s.stack| - 1].parent < |s.stack| - 1
  {
    Visited(s).(calls := s.calls + [HopOf(s, |s.stack| - 1)])
  }

  function ChildEntries(es: seq<Edge>, level: nat, parent: int): (r: seq<RouteEntry>)
    ensures |r| == |es| && forall k | 0 <= k < |es| :: r[k] == RouteEntry(es[k].child, level, parent, Some(es[k]))
  {
    seq(|es|, k requires 0 <= k < |es| => RouteEntry(es[k].child, level, parent, Some(es[k])))
  }

  /** An object met for the first time is expanded. */
  function Pushed(h: Heap, s: RouteState): RouteState
    requires s.stack != [] && IsObject(h, s.stack[|s.stack| - 1].obj)
  {
    var i := |s.stack| - 1;
    var e := s.stack[i];
    Visited(s).(stack := s.stack + ChildEntries(E(h, e.obj), e.level + 1, i), seen := s.seen + {e.obj})
  }

  lemma VisitedShape(h: Heap, from: Ref, s: RouteState)
    requires Shape(h, from, s) && s.stack != [] && s.stack[|s.stack| - 1].level >= s.prevLevel
    ensures Shape(h, from, Visited(s))
    ensures forall i | 0 <= i < |s.stack| - 1 :: Waiting(Visited(s), i) <==> Waiting(s, i)
    ensures !Waiting(Visited(s), |s.stack| - 1)
  {
    hide Edges;
    LevelTest(h, from, s);
    var t := Visited(s);
    assert s.path == [] ==> |s.stack| == 1 by {
      if |s.stack| > 1 { assert EntryOk(h, s, 1); }
    }
    forall i | 0 < i < |t.stack| ensures EntryOk(h, t, i) {
      assert EntryOk(h, s, i);
    }
    forall i | 0 <= i < |s.stack| - 1 ensures Waiting(t, i) <==> Waiting(s, i) {
      if i > 0 { assert EntryOk(h, s, i); }
    }
  }

  lemma OldEntryOk(h: Heap, s: RouteState, t: RouteState, i: nat)
    requires i < |s.stack| <= |t.stack| && t.path == s.path && t.stack[..|s.stack|] == s.stack && EntryOk(h, s, i)
    ensures EntryOk(h, t, i)
  {
    assert t.stack[i] == t.stack[..|s.stack|][i];
    assert t.stack[s.stack[i].parent] == t.stack[..|s.stack|][s.stack[i].parent];
  }

  lemma NewEntryOk(h: Heap, s: RouteState, i: nat)
    requires s.stack != [] && IsObject(h, s.stack[|s.stack| - 1].obj) && s.stack[|s.stack| - 1].level == |s.path|
    requires forall e | e in E(h, s.stack[|s.stack| - 1].obj) :: IsObject(h, e.child)
    requires |s.stack| <= i < |Pushed(h, s).stack|
    ensures EntryOk(h, Pushed(h, s), i)
  {
    hide Edges;
    var e := s.stack[|s.stack| - 1];
    assert Pushed(h, s).stack[i] == ChildEntries(E(h, e.obj), e.level + 1, |s.stack| - 1)[i - |s.stack|];
    assert E(h, e.obj)[i - |s.stack|] in E(h, e.obj);
  }

  lemma PushedShape(h: Heap, from: Ref, s: RouteState)
    requires GraphOk(h) && Shape(h, from, s) && s.stack != [] && s.stack[|s.stack| - 1].level >= s.prevLevel
    requires IsObject(h, s.stack[|s.stack| - 1].obj)
    ensures Shape(h, from, Pushed(h, s))
    ensures forall i | 0 <= i < |s.stack| - 1 :: Waiting(Pushed(h, s), i) <==> Waiting(s, i)
    ensures !Waiting(Pushed(h, s), |s.stack| - 1)
    ensures forall i | |s.stack| <= i < |Pushed(h, s).stack| :: Waiting(Pushed(h, s), i)
  {
    hide GraphOk, Edges;
    var e := s.stack[|s.stack| - 1];
    EdgesOk(h, e.obj, false);
    VisitedShape(h, from, s);
    LevelTest(h, from, s);
    var v, t := Visited(s), Pushed(h, s);
    forall i | 0 < i < |t.stack| ensures EntryOk(h, t, i) {
      if i < |s.stack| { OldEntryOk(h, v, t, i); } else { NewEntryOk(h, s, i); }
    }
    forall i | 0 <= i < |s.stack| ensures Waiting(t, i) <==> Waiting(v, i) {
      assert t.stack[i] == v.stack[i];
    }
  }

  /** The hop of the waiting top entry: new, from an expanded object, and different from all others waiting. */
  lemma TopHop(h: Heap, from: Ref, to: Ref, s: RouteState)
    requires Shape(h, from, s) && Expanded(to, s) && |s.stack| > 1 && Waiting(s, |s.stack| - 1)
    ensures 0 <= s.stack[|s.stack| - 1].parent < |s.stack| - 1
    ensures var p := HopOf(s, |s.stack| - 1);
          IsHop(h, p) && p.from in s.seen
          && HopChild(h, p) == s.stack[|s.stack| - 1].obj
    ensures forall i | 0 < i < |s.stack| - 1 && Waiting(s, i) && 0 <= s.stack[i].parent < i ::
        HopOf(s, i) != HopOf(s, |s.stack| - 1)
  {
    hide Edges;
    var n := |s.stack| - 1;
    assert EntryOk(h, s, n);
    var l := s.stack[n].level - 1;
    assert s.path[l] < n;
    forall i | 0 < i < n && Waiting(s, i) && 0 <= s.stack[i].parent < i ensures HopOf(s, i) != HopOf(s, n) {
      assert EntryOk(h, s, i);
      var m := s.stack[i].level - 1;
      assert s.path[m] < n;
      if m < l { assert s.stack[s.path[m]].obj != s.stack[s.path[l]].obj; }
    }
  }

  lemma VisitedCovers(h: Heap, s: RouteState, t: RouteState)
    requires Covered(h, s) && SameWaiting(s, t) && t.seen == s.seen && t.done == Visited(s).done
    ensures Covered(h, t)
  {
    hide IsHop;
    forall p | IsHop(h, p) && p.from in t.seen ensures p in t.done || HopWaits(t, p) {
      if p !in s.done { StillWaits(s, t, p); }
    }
  }

  lemma VisitedNew(s: RouteState, t: RouteState)
    requires WaitingNew(s) && SameWaiting(s, t) && t.done == Visited(s).done && |t.stack| == |s.stack| > 1
    requires 0 <= s.stack[|s.stack| - 1].parent < |s.stack| - 1
    requires forall i | 0 < i < |s.stack| - 1 && Waiting(s, i) && 0 <= s.stack[i].parent < i ::
        HopOf(s, i) != HopOf(s, |s.stack| - 1)
    ensures WaitingNew(t)
  {
    forall i | 0 < i < |t.stack| && 0 <= t.stack[i].parent < i && Waiting(t, i) ensures HopOf(t, i) !in t.done {
      SameHop(s, t, i);
    }
  }

  /** The hop to the target is new, and is added to the processed hops and to the calls. */
  lemma CalledDone(h: Heap, from: Ref, to: Ref, s: RouteState)
    requires Shape(h, from, s) && Expanded(to, s) && |s.stack| > 1 && Waiting(s, |s.stack| - 1)
    requires WaitingNew(s) && CallsOk(h, to, s.done, s.calls) && DoneOk(h, to, s.seen, s.done)
    requires s.stack[|s.stack| - 1].obj == to
    ensures 0 <= s.stack[|s.stack| - 1].parent < |s.stack| - 1
    ensures CallsOk(h, to, Called(s).done, Called(s).calls) && DoneOk(h, to, Called(s).seen, Called(s).done)
  {
    hide Shape, Expanded, IsHop, HopChild, HopOf;
    TopHop(h, from, to, s);
    assert HopOf(s, |s.stack| - 1) !in s.done;
  }

  /** The operation is called for the hop to the target, which it was never called for before. */
  lemma CalledCounted(h: Heap, from: Ref, to: Ref, s: RouteState)
    requires Shape(h, from, s) && Expanded(to, s) && Counted(h, from, to, s) && |s.stack| > 1
        && Waiting(s, |s.stack| - 1)
    requires SameWaiting(s, Visited(s)) && s.stack[|s.stack| - 1].obj == to
    requires s.path != []
    ensures 0 <= s.stack[|s.stack| - 1].parent < |s.stack| - 1
    ensures Counted(h, from, to, Called(s))
  {
    hide Edges, Shape, Expanded, Avoiding, IsHop, HopChild, CallsOk, DoneOk, WaitingNew, Covered, SameWaiting;
    TopHop(h, from, to, s);
    CalledDone(h, from, to, s);
    var t := Called(s);
    SameWaitingWith(s, Visited(s), t);
    VisitedCovers(h, s, t);
    VisitedNew(s, t);
  }

  lemma SameWaitingWith(s: RouteState, v: RouteState, t: RouteState)
    requires SameWaiting(s, v) && t.stack == v.stack && t.path == v.path
    ensures SameWaiting(s, t)
  {
  }

  lemma RepeatedDone(h: Heap, from: Ref, to: Ref, s: RouteState)
    requires Shape(h, from, s) && Expanded(to, s) && |s.stack| > 1 && Waiting(s, |s.stack| - 1)
    requires CallsOk(h, to, s.done, s.calls) && DoneOk(h, to, s.seen, s.done) && s.stack[|s.stack| - 1].obj in s.seen
    requires Counted(h, from, to, s) && s.path != []
    ensures CallsOk(h, to, Visited(s).done, Visited(s).calls) && DoneOk(h, to, Visited(s).seen, Visited(s).done)
  {
    TopHop(h, from, to, s);
  }

  /** An object met again is not expanded again. */
  lemma RepeatedCounted(h: Heap, from: Ref, to: Ref, s: RouteState)
    requires Shape(h, from, s) && Expanded(to, s) && Counted(h, from, to, s) && |s.stack| > 1
        && Waiting(s, |s.stack| - 1)
    requires SameWaiting(s, Visited(s)) && s.stack[|s.stack| - 1].obj in s.seen
    requires s.path != []
    ensures Counted(h, from, to, Visited(s))
  {
    hide Shape, Expanded, Avoiding, IsHop, HopChild, CallsOk, DoneOk;
    var t := Visited(s);
    TopHop(h, from, to, s);
    RepeatedDone(h, from, to, s);
    VisitedCovers(h, s, t);
    VisitedNew(s, t);
  }

  lemma PushedHopWaits(h: Heap, s: RouteState, k: nat)
    requires s.stack != [] && IsObject(h, s.stack[|s.stack| - 1].obj) && k < |E(h, s.stack[|s.stack| - 1].obj)|
    requires forall i | |s.stack| <= i < |Pushed(h, s).stack| :: Waiting(Pushed(h, s), i)
    ensures HopWaits(Pushed(h, s), Hop(s.stack[|s.stack| - 1].obj, k))
  {
    var t := Pushed(h, s);
    var i := |s.stack| + k;
    assert t.stack[i].parent == |s.stack| - 1;
    assert t.stack[|s.stack| - 1] == s.stack[|s.stack| - 1];
    assert HopOf(t, i) == Hop(s.stack[|s.stack| - 1].obj, k);
  }

  lemma PushedCovers(h: Heap, s: RouteState)
    requires Covered(h, s) && s.stack != [] && IsObject(h, s.stack[|s.stack| - 1].obj) && SameWaiting(s, Pushed(h, s))
    requires forall i | |s.stack| <= i < |Pushed(h, s).stack| :: Waiting(Pushed(h, s), i)
    ensures Covered(h, Pushed(h, s))
  {
    var t := Pushed(h, s);
    forall p | IsHop(h, p) && p.from in t.seen ensures p in t.done || HopWaits(t, p) {
      if p.from == s.stack[|s.stack| - 1].obj {
        PushedHopWaits(h, s, p.index);
      } else if p !in s.done {
        StillWaits(s, t, p);
      }
    }
  }

  lemma PushedNew(h: Heap, to: Ref, s: RouteState)
    requires WaitingNew(s) && s.stack != [] && IsObject(h, s.stack[|s.stack| - 1].obj) && SameWaiting(s, Pushed(h, s))
    requires s.stack[|s.stack| - 1].obj !in s.seen && DoneOk(h, to, s.seen, s.done)
    requires |s.stack| > 1 ==>
               && 0 <= s.stack[|s.stack| - 1].parent < |s.stack| - 1 && HopOf(s, |s.stack| - 1).from in s.seen
               && forall i | 0 < i < |s.stack| - 1 && Waiting(s, i) && 0 <= s.stack[i].parent < i ::
                   HopOf(s, i) != HopOf(s, |s.stack| - 1)
    ensures WaitingNew(Pushed(h, s))
  {
    hide Edges;
    var t := Pushed(h, s);
    var n := |s.stack| - 1;
    forall i | 0 < i < |t.stack| && 0 <= t.stack[i].parent < i && Waiting(t, i) ensures HopOf(t, i) !in t.done {
      if i < n {
        SameHop(s, t, i);
      } else {
        assert t.stack[i] == ChildEntries(E(h, s.stack[n].obj), s.stack[n].level + 1, n)[i - |s.stack|];
        assert HopOf(t, i).from == s.stack[n].obj;
      }
    }
  }

  lemma PushedSeen(h: Heap, from: Ref, to: Ref, s: RouteState)
    requires SeenOk(h, from, to, s) && Shape(h, from, s) && Expanded(to, s) && s.stack != []
        && Waiting(s, |s.stack| - 1)
    requires IsObject(h, s.stack[|s.stack| - 1].obj) && s.stack[|s.stack| - 1].obj != to && from != to
    ensures SeenOk(h, from, to, Pushed(h, s))
  {
    hide Avoiding, Edges, IsObject;
    var x := s.stack[|s.stack| - 1].obj;
    if |s.stack| == 1 {
      AvoidingSelf(h, from, to);
    } else {
      TopHop(h, from, to, s);
      AvoidingStep(h, from, to, HopOf(s, |s.stack| - 1));
      assert EntryOk(h, s, 1);
    }
  }

  /** An object met for the first time is expanded; each of its hops waits once. */
  lemma PushedCounted(h: Heap, from: Ref, to: Ref, s: RouteState)
    requires GraphOk(h) && Shape(h, from, s) && Expanded(to, s) && Counted(h, from, to, s) && s.stack != []
        && from != to
    requires s.stack[|s.stack| - 1].level >= s.prevLevel
    requires IsObject(h, s.stack[|s.stack| - 1].obj) && s.stack[|s.stack| - 1].obj != to
        && s.stack[|s.stack| - 1].obj !in s.seen
    ensures Counted(h, from, to, Pushed(h, s))
  {
    hide GraphOk, Shape, Expanded, Avoiding, Covered, WaitingNew, SeenOk, Edges;
    var t := Pushed(h, s);
    LevelTest(h, from, s);
    PushedShape(h, from, s);
    assert SameWaiting(s, t);
    if |s.stack| > 1 { TopHop(h, from, to, s); }
    assert CallsOk(h, to, t.done, t.calls) && DoneOk(h, to, t.seen, t.done);
    PushedCovers(h, s);
    PushedNew(h, to, s);
    PushedSeen(h, from, to, s);
  }

  lemma VisitedExpanded(to: Ref, h: Heap, from: Ref, s: RouteState)
    requires Expanded(to, s) && Shape(h, from, s) && s.stack != [] && Waiting(s, |s.stack| - 1)
    ensures Expanded(to, Visited(s))
  {
  }

  lemma PushedExpanded(h: Heap, from: Ref, to: Ref, s: RouteState)
    requires Expanded(to, s) && Shape(h, from, s) && s.stack != [] && Waiting(s, |s.stack| - 1)
    requires IsObject(h, s.stack[|s.stack| - 1].obj) && s.stack[|s.stack| - 1].obj != to
        && s.stack[|s.stack| - 1].obj !in s.seen
    ensures Expanded(to, Pushed(h, s))
  {
    hide Edges;
    var t := Pushed(h, s);
    forall l | 0 <= l < |s.path| ensures s.path[l] < |s.stack| - 1 && t.stack[s.path[l]] == s.stack[s.path[l]] {
      assert s.path[l] != |s.stack| - 1;
    }
  }

  // ---------- one iteration ----------

  lemma PopStep(h: Heap, from: Ref, to: Ref, s: RouteState)
    requires Inv(h, from, to, s) && s.stack != [] && s.stack[|s.stack| - 1].level < s.prevLevel
    ensures s.path != [] && Inv(h, from, to, Popped(s))
  {
    PoppedKeeps(h, from, to, s);
  }

  lemma TopIsObject(h: Heap, from: Ref, s: RouteState)
    requires Shape(h, from, s) && s.stack != []
    ensures IsObject(h, s.stack[|s.stack| - 1].obj)
    ensures |s.stack| > 1 ==> s.path != [] && 0 <= s.stack[|s.stack| - 1].parent < |s.stack| - 1
  {
    if |s.stack| > 1 { assert EntryOk(h, s, |s.stack| - 1); }
  }

  lemma CallStep(h: Heap, from: Ref, to: Ref, s: RouteState)
    requires Inv(h, from, to, s) && s.stack != [] && s.stack[|s.stack| - 1].level >= s.prevLevel && from != to
    requires s.stack[|s.stack| - 1].obj == to
    ensures |s.stack| > 1 && 0 <= s.stack[|s.stack| - 1].parent < |s.stack| - 1 && Inv(h, from, to, Called(s))
  {
    hide Edges;
    assert |s.stack| > 1 by { assert Shape(h, from, s); }
    hide Shape, Expanded, Counted;
    LevelTest(h, from, s);
    TopIsObject(h, from, s);
    VisitedShape(h, from, s);
    VisitedExpanded(to, h, from, s);
    CalledCounted(h, from, to, s);
    CalledShape(h, from, to, s);
  }

  lemma CalledShape(h: Heap, from: Ref, to: Ref, s: RouteState)
    requires |s.stack| > 1 && 0 <= s.stack[|s.stack| - 1].parent < |s.stack| - 1
    requires Shape(h, from, Visited(s)) && Expanded(to, Visited(s))
    ensures Shape(h, from, Called(s)) && Expanded(to, Called(s))
  {
    hide Edges;
    forall i | 0 < i < |s.stack| ensures EntryOk(h, Called(s), i) { assert EntryOk(h, Visited(s), i); }
  }

  lemma RepeatStep(h: Heap, from: Ref, to: Ref, s: RouteState)
    requires Inv(h, from, to, s) && s.stack != [] && s.stack[|s.stack| - 1].level >= s.prevLevel
    requires s.stack[|s.stack| - 1].obj in s.seen
    ensures Inv(h, from, to, Visited(s))
  {
    hide Edges, Shape, Expanded, Counted;
    RootUnseen(h, from, to, s);
    LevelTest(h, from, s);
    TopIsObject(h, from, s);
    VisitedShape(h, from, s);
    VisitedExpanded(to, h, from, s);
    RepeatedCounted(h, from, to, s);
  }

  lemma RootUnseen(h: Heap, from: Ref, to: Ref, s: RouteState)
    requires Inv(h, from, to, s) && s.stack != [] && s.stack[|s.stack| - 1].level >= s.prevLevel
    requires s.stack[|s.stack| - 1].obj in s.seen
    ensures |s.stack| > 1
  {
    LevelTest(h, from, s);
  }

  lemma PushStep(h: Heap, from: Ref, to: Ref, s: RouteState)
    requires GraphOk(h) && Inv(h, from, to, s) && s.stack != [] && s.stack[|s.stack| - 1].level >= s.prevLevel
        && from != to
    requires s.stack[|s.stack| - 1].obj != to && s.stack[|s.stack| - 1].obj !in s.seen
    ensures IsObject(h, s.stack[|s.stack| - 1].obj)
    ensures Inv(h, from, to, Pushed(h, s))
  {
    hide GraphOk, Shape, Expanded, Counted;
    LevelTest(h, from, s);
    TopIsObject(h, from, s);
    PushedShape(h, from, s);
    PushedExpanded(h, from, to, s);
    PushedCounted(h, from, to, s);
  }

  // ---------- the route of an entry ----------

  /** The legs from the root to an entry, along the parent indices. */
  function Chain(stack: seq<RouteEntry>, i: int): seq<Leg>
    decreases i
  {
    if i <= 0 || i >= |stack| || !(0 <= stack[i].parent < i) || stack[i].edge.None? then [] else
      Chain(stack, stack[i].parent) + [Leg(stack[stack[i].parent].obj, stack[i].edge.value)]
  }

  /** A simple path of edges that meets the target only at its end. */
  ghost predicate IsRoute(h: Heap, from: Ref, to: Ref, r: seq<Leg>) {
    && r != [] && r[0].parent == from && r[|r| - 1].edge.child == to
    && (forall i | 0 <= i < |r| :: IsObject(h, r[i].parent) && r[i].edge in E(h, r[i].parent) && r[i].parent != to)
    && (forall i | 0 <= i < |r| - 1 :: r[i].edge.child == r[i + 1].parent)
    && (forall i, j | 0 <= i < j < |r| :: r[i].parent != r[j].parent)
  }

  ghost predicate ChainUpTo(h: Heap, s: RouteState, l: nat, r: seq<Leg>)
    requires l < |s.path|
  {
    && |r| == l
    && (forall j | 0 <= j < l ::
          s.path[j] < |s.stack| && r[j].parent == s.stack[s.path[j]].obj
          && IsObject(h, r[j].parent) && r[j].edge in E(h, r[j].parent))
    && (forall j | 0 <= j < l ::
          j + 1 < |s.path| && s.path[j + 1] < |s.stack|
          && r[j].edge.child == s.stack[s.path[j + 1]].obj)
  }

  lemma {:induction false} ChainAlong(h: Heap, from: Ref, s: RouteState, l: nat)
    requires Shape(h, from, s) && l < |s.path|
    ensures ChainUpTo(h, s, l, Chain(s.stack, s.path[l]))
  {
    if l > 0 {
      assert s.path[0] < s.path[l];
      assert EntryOk(h, s, s.path[l]);
      ChainAlong(h, from, s, l - 1);
    }
  }

  /** The legs along the path, and one more to the target, are a route. */
  ghost predicate LegsAlong(h: Heap, s: RouteState, r: seq<Leg>) {
    && |r| <= |s.path|
    && (forall i | 0 <= i < |r| :: s.path[i] < |s.stack| - 1 && r[i].parent == s.stack[s.path[i]].obj)
    && (forall i | 0 <= i < |r| :: IsObject(h, r[i].parent) && r[i].edge in E(h, r[i].parent))
    && (forall i | 0 <= i < |r| - 1 :: r[i].edge.child == r[i + 1].parent)
  }

  lemma LegsAreRoute(h: Heap, from: Ref, to: Ref, s: RouteState, r: seq<Leg>)
    requires LegsAlong(h, s, r) && Expanded(to, s) && r != [] && r[|r| - 1].edge.child == to
    requires s.path[0] == 0 && s.stack[0].obj == from
    ensures IsRoute(h, from, to, r)
  {
  }

  lemma LegsExtend(h: Heap, s: RouteState, l: nat, legs: seq<Leg>, e: Edge)
    requires l < |s.path| && ChainUpTo(h, s, l, legs) && forall j | 0 <= j <= l :: s.path[j] < |s.stack| - 1
    requires IsObject(h, s.stack[s.path[l]].obj) && e in E(h, s.stack[s.path[l]].obj)
    ensures LegsAlong(h, s, legs + [Leg(s.stack[s.path[l]].obj, e)])
  {
    hide Edges, IsObject;
    var r := legs + [Leg(s.stack[s.path[l]].obj, e)];
    forall i | 0 <= i < |r| - 1 ensures r[i].edge.child == r[i + 1].parent {
      assert r[i] == legs[i];
      if i + 1 < |legs| { assert r[i + 1] == legs[i + 1]; }
    }
  }

  lemma ChainLegs(h: Heap, from: Ref, s: RouteState, l: nat, e: Edge, n: nat)
    requires Shape(h, from, s) && l < |s.path| && s.path[l] < n == |s.stack| - 1
    requires IsObject(h, s.stack[s.path[l]].obj) && e in E(h, s.stack[s.path[l]].obj)
    ensures LegsAlong(h, s, Chain(s.stack, s.path[l]) + [Leg(s.stack[s.path[l]].obj, e)])
  {
    hide Chain, Edges, IsObject, EntryOk, LegsAlong, ChainUpTo;
    ChainAlong(h, from, s, l);
    forall j | 0 <= j <= l ensures s.path[j] < n { if j < l { assert s.path[j] < s.path[l]; } }
    LegsExtend(h, s, l, Chain(s.stack, s.path[l]), e);
  }

  /** At a call of the operation the parent chain of the top entry is a route to the target. */
  lemma CalledRoute(h: Heap, from: Ref, to: Ref, s: RouteState)
    requires Inv(h, from, to, s) && |s.stack| > 1 && s.stack[|s.stack| - 1].level >= s.prevLevel
    requires s.stack[|s.stack| - 1].obj == to
    ensures 0 <= s.stack[|s.stack| - 1].parent < |s.stack| - 1
    ensures IsRoute(h, from, to, Chain(s.stack, |s.stack| - 1))
    ensures var p := HopOf(s, |s.stack| - 1);
            var route := Chain(s.stack, |s.stack| - 1);
            IsHop(h, p) && route[|route| - 1] == Leg(p.from, E(h, p.from)[p.index])
  {
    var n := |s.stack| - 1;
    hide Expanded, Counted, Chain, LegsAlong, IsRoute;
    assert EntryOk(h, s, n);
    var l := s.stack[n].level - 1;
    var e := s.stack[n].edge.value;
    assert e == E(h, s.stack[s.path[l]].obj)[n - s.path[l] - 1];
    ChainStep(s.stack, n);
    ChainLegs(h, from, s, l, e, n);
    LegsAreRoute(h, from, to, s, Chain(s.stack, n));
  }

  lemma ChainStep(stack: seq<RouteEntry>, i: nat)
    requires 0 < i < |stack| && 0 <= stack[i].parent < i && stack[i].edge.Some?
    ensures Chain(stack, i) == Chain(stack, stack[i].parent) + [Leg(stack[stack[i].parent].obj, stack[i].edge.value)]
  {
  }

  /** Walks the parent indices from the top of the stack, putting each leg in front. */
  method BuildRoute(stack: seq<RouteEntry>, ghost h: Heap, ghost from: Ref, ghost s: RouteState)
    returns (route: seq<Leg>)
    requires Shape(h, from, s) && s.stack == stack && stack != []
    ensures route == Chain(stack, |stack| - 1)
  {
    route := [];
    var idx: int := |stack| - 1;
    while idx > 0
      invariant 0 <= idx < |stack|
      invariant Chain(stack, idx) + route == Chain(stack, |stack| - 1)
    {
      assert EntryOk(h, s, idx);
      var i := stack[idx];
      route := [Leg(stack[i.parent].obj, i.edge.value)] + route;
      idx := i.parent;
    }
  }

  // ---------- the end of the enumeration ----------

  lemma EmptyPath(h: Heap, from: Ref, to: Ref, s: RouteState)
    requires Inv(h, from, to, s) && s.stack == []
    ensures from in s.seen
    ensures forall p | IsHop(h, p) && p.from in s.seen :: p in s.done
  {
  }

  lemma {:induction false} AvoidingSeen(h: Heap, from: Ref, to: Ref, s: RouteState, p: seq<Ref>)
    requires from in s.seen && DoneOk(h, to, s.seen, s.done)
    requires forall q | IsHop(h, q) && q.from in s.seen :: q in s.done
    requires AvoidingPath(h, to, p) && p[0] == from
    ensures p[|p| - 1] in s.seen
  {
    if |p| > 1 {
      var q := p[..|p| - 1];
      assert AvoidingPath(h, to, q) by {
        forall i | 0 <= i < |q| - 1 ensures Linked(h, q[i], q[i + 1]) { assert Linked(h, p[i], p[i + 1]); }
      }
      AvoidingSeen(h, from, to, s, q);
      var x := p[|p| - 2];
      assert Linked(h, x, p[|p| - 1]);
      var k :| 0 <= k < |E(h, x)| && E(h, x)[k].child == p[|p| - 1];
      assert IsHop(h, Hop(x, k)) && HopChild(h, Hop(x, k)) == p[|p| - 1];
    }
  }

  ghost predicate LeadsTo(h: Heap, from: Ref, to: Ref, p: Hop) {
    IsHop(h, p) && HopChild(h, p) == to && Avoiding(h, from, to, p.from)
  }

  lemma AllCalled(h: Heap, from: Ref, to: Ref, s: RouteState)
    requires Inv(h, from, to, s) && s.stack == []
    ensures forall p :: p in s.calls <==> LeadsTo(h, from, to, p)
  {
    EmptyPath(h, from, to, s);
    forall p | LeadsTo(h, from, to, p) ensures p in s.calls {
      var q :| AvoidingPath(h, to, q) && q[0] == from && q[|q| - 1] == p.from;
      AvoidingSeen(h, from, to, s, q);
    }
    CallsLead(h, from, to, s);
  }

  lemma CallsLead(h: Heap, from: Ref, to: Ref, s: RouteState)
    requires Inv(h, from, to, s)
    ensures NoDup(s.calls) && forall p | p in s.calls :: LeadsTo(h, from, to, p)
  {
  }

  // ---------- the enumerator ----------

  /** An object that the enumeration gets to, but whose children it cannot enumerate. */
  ghost predicate Stuck(h: Heap, from: Ref, to: Ref, x: Ref) {
    IsObject(h, x) && Avoiding(h, from, to, x) && !Listed(h, x)
  }

  ghost predicate SeenListed(h: Heap, seen: set<Ref>) {
    forall x | x in seen && IsObject(h, x) :: Listed(h, x)
  }

  lemma MoreListed(h: Heap, seen: set<Ref>, x: Ref)
    requires SeenListed(h, seen) && IsObject(h, x) && Listed(h, x)
    ensures SeenListed(h, seen + {x})
  {
    hide Listed;
  }

  lemma PushedStuck(h: Heap, from: Ref, to: Ref, s: RouteState)
    requires s.stack != [] && IsObject(h, s.stack[|s.stack| - 1].obj) && Inv(h, from, to, Pushed(h, s))
    requires !Listed(h, s.stack[|s.stack| - 1].obj)
    ensures Stuck(h, from, to, s.stack[|s.stack| - 1].obj)
  {
    hide Shape, Expanded, Edges, Avoiding;
    assert s.stack[|s.stack| - 1].obj in Pushed(h, s).seen;
  }

  lemma NothingStuck(h: Heap, from: Ref, to: Ref, s: RouteState)
    requires Inv(h, from, to, s) && s.stack == [] && SeenListed(h, s.seen)
    ensures forall x :: !Stuck(h, from, to, x)
  {
    hide Listed, Shape, Expanded, Edges;
    EmptyPath(h, from, to, s);
    forall x | Stuck(h, from, to, x) ensures false {
      var q :| AvoidingPath(h, to, q) && q[0] == from && q[|q| - 1] == x;
      AvoidingSeen(h, from, to, s, q);
    }
  }

  ghost predicate RoutesMatch(h: Heap, from: Ref, to: Ref, routes: seq<seq<Leg>>, calls: seq<Hop>) {
    && |routes| == |calls|
    && forall i | 0 <= i < |calls| ::
         && IsRoute(h, from, to, routes[i])
         && IsHop(h, calls[i]) && routes[i][|routes[i]| - 1] == Leg(calls[i].from, E(h, calls[i].from)[calls[i].index])
  }

  lemma MoreRoutes(h: Heap, from: Ref, to: Ref, routes: seq<seq<Leg>>, calls: seq<Hop>, r: seq<Leg>, p: Hop)
    requires RoutesMatch(h, from, to, routes, calls) && IsRoute(h, from, to, r)
    requires IsHop(h, p) && r[|r| - 1] == Leg(p.from, E(h, p.from)[p.index])
    ensures RoutesMatch(h, from, to, routes + [r], calls + [p])
  {
    hide IsRoute;
  }

  /** Termination: unseen objects, then entries that wait, then the stack. */
  ghost function WaitingCount(s: RouteState): int { |s.stack| - |s.path| }

  /**
   Enumerates routes between two objects, all of them or just one. Each route is a simple path that
   ends with a hop to the target; `calls` tells which hop. No hop is reported twice, and the
   enumeration of all routes reports every hop to the target from an object that can be reached
   without passing the target. It is undefined only if such an object has a dict that does not give a key
   for every item, and the enumeration of all routes whenever there is one.
   */
  method EnumerateRoutes(h: Heap, hash: Ref -> nat, from: Ref, to: Ref, all: bool)
    returns (routes: seq<seq<Leg>>, ghost calls: seq<Hop>, defined: bool)
    requires GraphOk(h) && IsObject(h, from)
    ensures from == to ==> defined && routes == [[]]
    ensures from != to ==>
              && RoutesMatch(h, from, to, routes, calls) && NoDup(calls)
              && forall p | p in calls :: LeadsTo(h, from, to, p)
    ensures from != to && !defined ==> exists x :: Stuck(h, from, to, x)
    ensures from != to && defined && all ==>
              (forall x :: !Stuck(h, from, to, x)) && forall p | LeadsTo(h, from, to, p) :: p in calls
    ensures from != to && defined && !all ==>
              |calls| <= 1 && (calls == [] ==> forall p :: !LeadsTo(h, from, to, p))
  {
    hide GraphOk, Inv, Popped, Pushed, Called, Visited, LeadsTo, Unseen, NoDup, IsRoute, IsHop, RoutesMatch, Chain,
         ChildEntries, HopOf, WaitingCount, Shape, Edges, Listed, Avoiding, Stuck, SeenListed;
    routes, calls, defined := [], [], true;
    if from == to {
      return [[]], [], true;
    }
    var seen := new SeenObjectSet(hash);
    var stack := [RouteEntry(from, 0, -1, None)];
    var prevLevel: int := 0;
    ghost var s := Start(from);
    Starts(h, from, to);
    NoneListed(h);
    NoRoutes(h, from, to);
    while stack != []
      invariant seen.Valid() && fresh(seen) && fresh(seen.buckets)
      invariant Inv(h, from, to, s)
      invariant stack == s.stack && prevLevel == s.prevLevel && seen.objects == s.seen
      invariant RoutesMatch(h, from, to, routes, s.calls) && calls == s.calls
      invariant !all ==> calls == []
      invariant SeenListed(h, s.seen)
      decreases Unseen(h, s.seen), WaitingCount(s), |stack|
    {
      var e := stack[|stack| - 1];
      ShapeFacts(h, from, to, s);
      WaitingAtLeastZero(h, from, to, s);
      if e.level < prevLevel {
        PopStep(h, from, to, s);
        PoppedIs(s);
        s := Popped(s);
        prevLevel := e.level;
        stack := stack[..|stack| - 1];
        continue;
      }
      prevLevel := e.level + 1;
      if e.obj == to {
        CallStep(h, from, to, s);
        CalledIs(s);
        CalledRoute(h, from, to, s);
        var route := BuildRoute(stack, h, from, s);
        MoreRoutes(h, from, to, routes, s.calls, route, HopOf(s, |s.stack| - 1));
        routes := routes + [route];
        s := Called(s);
        calls := s.calls;
        if !all {
          CallsLead(h, from, to, s);
          return;
        }
      } else {
        var isNew := seen.Visit(e.obj);
        if isNew {
          PushStep(h, from, to, s);
          UnseenShrinks(h, s.seen, e.obj);
          PushedIs(h, s);
          var es, listed := EnumerateChildren(h, e.obj, false);
          if !listed {
            PushedStuck(h, from, to, s);
            CallsLead(h, from, to, s);
            return routes, calls, false;
          }
          MoreListed(h, s.seen, e.obj);
          stack := stack + ChildEntries(es, e.level + 1, |stack| - 1);
          s := Pushed(h, s);
        } else {
          RepeatStep(h, from, to, s);
          VisitedIs(s);
          assert seen.objects == s.seen;
          s := Visited(s);
        }
      }
    }
    AllCalled(h, from, to, s);
    NothingStuck(h, from, to, s);
    CallsLead(h, from, to, s);
  }

  // ---------- facts for the loop ----------

  lemma NoneListed(h: Heap)
    ensures SeenListed(h, {})
  {
  }

  lemma NoRoutes(h: Heap, from: Ref, to: Ref)
    ensures RoutesMatch(h, from, to, [], [])
  {
  }

  lemma WaitingAtLeastZero(h: Heap, from: Ref, to: Ref, s: RouteState)
    requires Inv(h, from, to, s)
    ensures WaitingCount(s) >= 0
  {
    if s.path != [] { PathRoom(s.path, |s.stack|, 0); }
  }

  lemma ShapeFacts(h: Heap, from: Ref, to: Ref, s: RouteState)
    requires Inv(h, from, to, s) && s.stack != []
    ensures Shape(h, from, s) && IsObject(h, s.stack[|s.stack| - 1].obj) && s.prevLevel == |s.path|
  {
    TopIsObject(h, from, s);
  }

  lemma PoppedIs(s: RouteState)
    requires s.stack != [] && s.path != [] && s.prevLevel == |s.path|
    ensures Popped(s).stack == s.stack[..|s.stack| - 1] && Popped(s).prevLevel == s.stack[|s.stack| - 1].level
    ensures Popped(s).seen == s.seen && Popped(s).calls == s.calls && WaitingCount(Popped(s)) == WaitingCount(s)
  {
  }

  lemma VisitedIs(s: RouteState)
    requires s.stack != []
    ensures Visited(s).stack == s.stack && Visited(s).prevLevel == s.stack[|s.stack| - 1].level + 1
    ensures Visited(s).seen == s.seen && Visited(s).calls == s.calls && WaitingCount(Visited(s)) == WaitingCount(s) - 1
  {
  }

  lemma CalledIs(s: RouteState)
    requires |s.stack| > 1 && 0 <= s.stack[|s.stack| - 1].parent < |s.stack| - 1
    ensures Called(s).stack == s.stack && Called(s).prevLevel == s.stack[|s.stack| - 1].level + 1
    ensures Called(s).seen == s.seen && Called(s).calls == s.calls + [HopOf(s, |s.stack| - 1)]
        && WaitingCount(Called(s)) == WaitingCount(s) - 1
  {
  }

  lemma PushedIs(h: Heap, s: RouteState)
    requires s.stack != [] && IsObject(h, s.stack[|s.stack| - 1].obj)
    ensures var top := s.stack[|s.stack| - 1];
            Pushed(h, s).stack == s.stack + ChildEntries(E(h, top.obj), top.level + 1, |s.stack| - 1)
    ensures Pushed(h, s).prevLevel == s.stack[|s.stack| - 1].level + 1
    ensures Pushed(h, s).seen == s.seen + {s.stack[|s.stack| - 1].obj} && Pushed(h, s).calls == s.calls
  {
  }
}

/** FindReference and FindAllReferences. */
module FindReferences {
  import opened Basics
  import opened ObjectModel
  import opened Children
  import opened Search

  /** A pointer as a client holds it: an object and the interface it is seen through; 0 is IRoot itself. */
  datatype Pointer = Pointer(obj: Ref, iface: nat)

  /** All members count, and nothing is pruned. */
  const Everything := Query({}, false, false)

  lemma EverythingEdges(h: Heap, r: Ref)
    requires IsObject(h, r)
    ensures Everything.Edges(h, r) == Edges(h, r, false)
  {
  }

  /** After an exhausted search every reachable object has been processed. */
  lemma ExhaustedReaches(h: Heap, root: Ref, owner: map<Ref, (Ref, nat)>, s: State, x: Ref)
    requires s.stack == [] && Running(h, Everything, root, owner, -1, s) && Reaches(h, Everything, root, x)
    ensures x in s.order
  {
    var n: nat :| ReachesIn(h, Everything, root, x, n);
    var p :| IsPath(h, Everything, p) && |p| == n + 1 && p[0] == root && p[n] == x;
    ReachedProcessed(h, Everything, root, -1, s, p);
  }

  lemma TopReached(h: Heap, root: Ref, owner: map<Ref, (Ref, nat)>, s: State)
    requires s.stack != [] && Running(h, Everything, root, owner, -1, s)
    ensures Reaches(h, Everything, root, Top(s).obj)
  {
    assert Top(s) in s.stack;
    assert ReachesIn(h, Everything, root, Top(s).obj, Top(s).level);
  }

  /**
   Whether `to` can be reached from `from`. The search compares canonical object addresses with
   the pointer it is given, so a pointer to another interface of a reachable object is not found.
   */
  method FindReference(h: Heap, hash: Ref -> nat, from: Pointer, to: Pointer) returns (found: bool, defined: bool)
    requires GraphOk(h) && (from.obj != Null ==> IsObject(h, from.obj))
    ensures !defined ==> exists x :: Gap(h, Everything, from.obj, x)
    ensures defined ==> (found <==> from == to
                                    || (from.obj != Null && to.obj != Null && to.iface == 0
                                        && Reaches(h, Everything, from.obj, to.obj)))
  {
    hide GraphOk, Reaches, ReachesIn, Running, StackWeight, Unseen, Pushed, Deep, Processed, Objects, Listed, Gap;
    defined := true;
    if from == to { return true, true; }
    if from.obj == Null || to.obj == Null { return false, true; }
    ghost var q := Everything;
    ghost var order: seq<Ref> := [];
    ghost var root := from.obj;
    var seen := new SeenObjectSet(hash);
    var stack := [Entry(from.obj, 0, true)];
    RunningStarts(h, q, root, map[], -1);
    while stack != []
      invariant seen.Valid() && fresh(seen) && fresh(seen.buckets)
      invariant Running(h, q, root, map[], -1, State(stack, seen.objects, order))
      invariant Objects(h, stack) && (to.iface == 0 ==> to.obj !in order)
      decreases Unseen(h, seen.objects), StackWeight(h, stack), |stack|
    {
      ghost var s := State(stack, seen.objects, order);
      var e := stack[|stack| - 1];
      stack := stack[..|stack| - 1];
      var isNew := true;
      if e.check {
        isNew := seen.Visit(e.obj);
      }
      if isNew {
        if Pointer(e.obj, 0) == to {
          TopReached(h, root, map[], s);
          return true, true;
        }
        RunningProcessed(h, q, root, map[], -1, s);
        EverythingEdges(h, e.obj);
        var es, listed := EnumerateChildren(h, e.obj, false);
        if !listed {
          NotDeep(e.level);
          TopIsGap(h, q, root, map[], -1, s);
          return false, false;
        }
        var pushed := Pushed(es, e.level + 1);
        stack := stack + pushed;
        order := order + [e.obj];
        ghost var t := State(stack, seen.objects, order);
        NotDeep(e.level);
        ProcessedIs(h, q, -1, s, pushed, t);
        RunningFacts(h, q, root, map[], -1, t);
      } else {
        assert seen.objects == s.seen;
        RunningDropped(h, q, root, map[], -1, s);
      }
    }
    if to.iface == 0 && Reaches(h, q, root, to.obj) {
      ExhaustedReaches(h, root, map[], State(stack, seen.objects, order), to.obj);
    }
    return false, true;
  }

  lemma NotDeep(level: nat)
    ensures !Deep(-1, level)
  {
  }

  // ---------- FindAllReferences ----------

  datatype Record = Record(parent: Ref, item: PathItem)

  /** The records of the edges of one object that lead to `c`, in order of enumeration. */
  function RecordsOf(h: Heap, r: Ref, es: seq<Edge>, c: Ref): seq<Record>
    requires IsObject(h, r)
  {
    if es == [] then [] else
      var e := es[|es| - 1];
      RecordsOf(h, r, es[..|es| - 1], c) + (if e.child == c then [Record(r, GetPathItem(h, r, e))] else [])
  }

  function AllRecords(h: Heap, order: seq<Ref>, c: Ref): seq<Record>
    requires forall x | x in order :: IsObject(h, x)
  {
    if order == [] then [] else
      var r := order[|order| - 1];
      AllRecords(h, order[..|order| - 1], c) + RecordsOf(h, r, Edges(h, r, false), c)
  }

  function Lookup(m: map<Ref, seq<Record>>, c: Ref): seq<Record> {
    if c in m then m[c] else []
  }

  /** The places among the edges of `r` of those that lead to `c` and are recorded as `item`. */
  ghost function Leading(h: Heap, r: Ref, es: seq<Edge>, c: Ref, item: PathItem): set<nat>
    requires IsObject(h, r)
  {
    set i: nat | i < |es| && es[i].child == c && GetPathItem(h, r, es[i]) == item
  }

  lemma CountLast<T>(s: seq<T>, y: T, x: T)
    ensures multiset(s + [y])[x] == multiset(s)[x] + if x == y then 1 else 0
  {
    assert multiset(s + [y]) == multiset(s) + multiset{y};
  }

  lemma LeadingMore(h: Heap, r: Ref, es: seq<Edge>, c: Ref, item: PathItem)
    requires IsObject(h, r) && es != []
    ensures |Leading(h, r, es, c, item)| == |Leading(h, r, es[..|es| - 1], c, item)|
                + if es[|es| - 1].child == c && GetPathItem(h, r, es[|es| - 1]) == item then 1 else 0
  {
    hide GetPathItem, Leading;
    var n := |es| - 1;
    var front, all := Leading(h, r, es[..n], c, item), Leading(h, r, es, c, item);
    forall i ensures i in front <==> i in all && i != n { LeadingAt(h, r, es, c, item, i); }
    LeadingAt(h, r, es, c, item, n);
    if n in all {
      assert all == front + {n};
    } else {
      assert all == front;
    }
  }

  lemma LeadingAt(h: Heap, r: Ref, es: seq<Edge>, c: Ref, item: PathItem, i: nat)
    requires IsObject(h, r) && es != []
    ensures i in Leading(h, r, es, c, item) <==> i < |es| && es[i].child == c && GetPathItem(h, r, es[i]) == item
    ensures i in Leading(h, r, es[..|es| - 1], c, item) <==> i in Leading(h, r, es, c, item) && i != |es| - 1
  {
    hide GetPathItem;
  }

  lemma {:induction false} RecordsOfCount(h: Heap, r: Ref, es: seq<Edge>, c: Ref, x: Record)
    requires IsObject(h, r)
    ensures multiset(RecordsOf(h, r, es, c))[x] == if x.parent == r then |Leading(h, r, es, c, x.item)| else 0
  {
    hide GetPathItem;
    if es == [] {
      assert Leading(h, r, es, c, x.item) == {};
    } else {
      var front, e := es[..|es| - 1], es[|es| - 1];
      RecordsOfCount(h, r, front, c, x);
      LeadingMore(h, r, es, c, x.item);
      CountLast(RecordsOf(h, r, front, c), Record(r, GetPathItem(h, r, e)), x);
    }
  }

  lemma {:induction false} AllRecordsCount(h: Heap, order: seq<Ref>, c: Ref, x: Record)
    requires (forall y | y in order :: IsObject(h, y)) && NoDup(order)
    ensures x.parent in order ==>
              multiset(AllRecords(h, order, c))[x] == |Leading(h, x.parent, Edges(h, x.parent, false), c, x.item)|
    ensures x.parent !in order ==> multiset(AllRecords(h, order, c))[x] == 0
  {
    hide Leading, RecordsOf, Edges;
    if order != [] {
      var front, r := order[..|order| - 1], order[|order| - 1];
      assert order == front + [r];
      assert r !in front;
      AllRecordsCount(h, front, c, x);
      RecordsOfCount(h, r, Edges(h, r, false), c, x);
      assert multiset(AllRecords(h, order, c))
          == multiset(AllRecords(h, front, c)) + multiset(RecordsOf(h, r, Edges(h, r, false), c));
    }
  }

  /** Every object is visited once, embedded or not; its edges are recorded under their children. */
  ghost predicate Collecting(h: Heap, root: Ref, stack: seq<Ref>, order: seq<Ref>) {
    && (forall x | x in stack || x in order :: IsObject(h, x) && Reaches(h, Everything, root, x))
    && NoDup(order)
    && (root in order || root in stack)
    && (forall x, e | x in order && e in Edges(h, x, false) :: e.child in order || e.child in stack)
  }

  function ChildrenOf(es: seq<Edge>): (r: seq<Ref>)
    ensures |r| == |es| && forall i | 0 <= i < |es| :: r[i] == es[i].child
  {
    seq(|es|, i requires 0 <= i < |es| => es[i].child)
  }

  lemma CollectingStarts(h: Heap, root: Ref)
    requires IsObject(h, root)
    ensures Collecting(h, root, [root], [])
  {
    ReachesNone(h, Everything, root);
  }

  lemma CollectingFacts(h: Heap, root: Ref, stack: seq<Ref>, order: seq<Ref>)
    requires Collecting(h, root, stack, order)
    ensures forall x | x in stack || x in order :: IsObject(h, x)
    ensures NoDup(order)
  {
  }

  lemma CollectingSkips(h: Heap, root: Ref, stack: seq<Ref>, order: seq<Ref>)
    requires Collecting(h, root, stack, order) && stack != [] && stack[|stack| - 1] in order
    ensures Collecting(h, root, stack[..|stack| - 1], order)
  {
    hide Reaches;
    assert stack == stack[..|stack| - 1] + [stack[|stack| - 1]];
  }

  lemma ChildReached(h: Heap, root: Ref, x: Ref, e: Edge)
    requires GraphOk(h) && IsObject(h, x) && Reaches(h, Everything, root, x) && e in Edges(h, x, false)
    ensures IsObject(h, e.child) && Reaches(h, Everything, root, e.child)
  {
    EverythingEdges(h, x);
    EdgeIsStep(h, Everything, x, e);
    var n: nat :| ReachesIn(h, Everything, root, x, n);
    ReachesOneMore(h, Everything, root, x, e.child, n);
  }

  lemma CollectingAdds(h: Heap, root: Ref, stack: seq<Ref>, order: seq<Ref>)
    requires GraphOk(h) && Collecting(h, root, stack, order) && stack != [] && stack[|stack| - 1] !in order
    ensures IsObject(h, stack[|stack| - 1])
    ensures var top := stack[|stack| - 1];
            Collecting(h, root, stack[..|stack| - 1] + ChildrenOf(Edges(h, top, false)), order + [top])
  {
    hide Reaches, GraphOk;
    var front, x := stack[..|stack| - 1], stack[|stack| - 1];
    assert stack == front + [x];
    var es := Edges(h, x, false);
    forall i | 0 <= i < |es| ensures IsObject(h, es[i].child) && Reaches(h, Everything, root, es[i].child) {
      ChildReached(h, root, x, es[i]);
    }
    forall e | e in es ensures e.child in ChildrenOf(es) {
      var i :| 0 <= i < |es| && es[i] == e;
      assert ChildrenOf(es)[i] == e.child;
    }
  }

  lemma {:induction false} CollectedPath(h: Heap, root: Ref, order: seq<Ref>, p: seq<Ref>)
    requires Collecting(h, root, [], order) && IsPath(h, Everything, p) && p[0] == root
    ensures p[|p| - 1] in order
  {
    if |p| > 1 {
      var r := p[..|p| - 1];
      assert IsPath(h, Everything, r) by {
        forall i | 0 <= i < |r| - 1 ensures Search.Step(h, Everything, r[i], r[i + 1]) {
          assert Search.Step(h, Everything, p[i], p[i + 1]);
        }
      }
      CollectedPath(h, root, order, r);
      assert Search.Step(h, Everything, p[|p| - 2], p[|p| - 1]);
      EverythingEdges(h, p[|p| - 2]);
    }
  }

  lemma CollectedAll(h: Heap, root: Ref, order: seq<Ref>)
    requires Collecting(h, root, [], order)
    ensures forall x :: x in order <==> Reaches(h, Everything, root, x)
  {
    forall x | Reaches(h, Everything, root, x) ensures x in order {
      var n: nat :| ReachesIn(h, Everything, root, x, n);
      var p :| IsPath(h, Everything, p) && |p| == n + 1 && p[0] == root && p[n] == x;
      CollectedPath(h, root, order, p);
    }
  }

  lemma NoEdges(h: Heap, r: Ref, es: seq<Edge>)
    requires IsObject(h, r)
    ensures forall c :: RecordsOf(h, r, es[..0], c) == []
  {
  }

  lemma OneMoreEdge(h: Heap, r: Ref, es: seq<Edge>, i: nat, c: Ref)
    requires IsObject(h, r) && i < |es|
    ensures RecordsOf(h, r, es[..i + 1], c)
         == RecordsOf(h, r, es[..i], c) + if es[i].child == c then [Record(r, GetPathItem(h, r, es[i]))] else []
  {
    hide GetPathItem;
    assert es[..i + 1][..i] == es[..i];
  }

  ghost predicate AllListed(h: Heap, order: seq<Ref>) {
    forall x | x in order && IsObject(h, x) :: Listed(h, x)
  }

  lemma CollectingGap(h: Heap, root: Ref, stack: seq<Ref>, order: seq<Ref>)
    requires Collecting(h, root, stack, order) && stack != []
    requires IsObject(h, stack[|stack| - 1]) && !Listed(h, stack[|stack| - 1])
    ensures Gap(h, Everything, root, stack[|stack| - 1])
  {
    hide Listed;
    assert stack[|stack| - 1] in stack;
  }

  lemma NothingUnlisted(h: Heap, root: Ref, order: seq<Ref>)
    requires AllListed(h, order) && forall x :: x in order <==> Reaches(h, Everything, root, x)
    ensures forall x :: !Gap(h, Everything, root, x)
  {
    hide Listed;
  }

  /** A record is appended under the child of its edge. */
  method AddRecord(h: Heap, m: map<Ref, seq<Record>>, r: Ref, e: Edge) returns (n: map<Ref, seq<Record>>)
    requires IsObject(h, r)
    ensures forall c :: Lookup(n, c) == Lookup(m, c) + if e.child == c then [Record(r, GetPathItem(h, r, e))] else []
  {
    hide GetPathItem;
    n := m;
    if e.child !in n {
      n := n[e.child := []];
    }
    n := n[e.child := n[e.child] + [Record(r, GetPathItem(h, r, e))]];
  }

  /** Adds the records of one object's edges, one edge after the other. */
  method AddRecords(h: Heap, m: map<Ref, seq<Record>>, r: Ref, es: seq<Edge>) returns (n: map<Ref, seq<Record>>)
    requires IsObject(h, r)
    ensures forall c :: Lookup(n, c) == Lookup(m, c) + RecordsOf(h, r, es, c)
  {
    hide RecordsOf, Lookup, GetPathItem;
    n := m;
    NoEdges(h, r, es);
    for i := 0 to |es|
      invariant forall c :: Lookup(n, c) == Lookup(m, c) + RecordsOf(h, r, es[..i], c)
    {
      n := AddRecord(h, n, r, es[i]);
      forall c ensures Lookup(n, c) == Lookup(m, c) + RecordsOf(h, r, es[..i + 1], c) {
        OneMoreEdge(h, r, es, i, c);
      }
    }
    assert es[..|es|] == es;
  }

  /**
   The converse of the edge relation: under each child, one record for every edge that leads to it
   from an object reachable from the root, and nothing else.
   */
  method FindAllReferences(h: Heap, hash: Ref -> nat, root: Ref)
    returns (result: map<Ref, seq<Record>>, defined: bool)
    requires GraphOk(h) && IsObject(h, root)
    ensures defined <==> forall x :: !Gap(h, Everything, root, x)
    ensures defined ==>
              forall c, x: Record ::
                multiset(Lookup(result, c))[x] ==
                if IsObject(h, x.parent) && Reaches(h, Everything, root, x.parent)
                then |Leading(h, x.parent, Edges(h, x.parent, false), c, x.item)| else 0
  {
    hide Listed, Gap, GraphOk, Reaches, Collecting, Unseen, AllRecords, RecordsOf, ChildrenOf, NoDup, Leading, Edges;
    result := map[];
    ghost var order: seq<Ref> := [];
    var seen := new SeenObjectSet(hash);
    var stack := [root];
    CollectingStarts(h, root);
    NoRecords(h);
    while stack != []
      invariant seen.Valid() && fresh(seen) && fresh(seen.buckets)
      invariant Collecting(h, root, stack, order)
      invariant forall x :: x in seen.objects <==> x in order
      invariant AllListed(h, order)
      invariant (forall x | x in order :: IsObject(h, x)) && forall c :: Lookup(result, c) == AllRecords(h, order, c)
      decreases Unseen(h, seen.objects), |stack|
    {
      var obj := stack[|stack| - 1];
      ghost var seenBefore := seen.objects;
      CollectingFacts(h, root, stack, order);
      var isNew := seen.Visit(obj);
      if isNew {
        CollectingAdds(h, root, stack, order);
        UnseenShrinks(h, seenBefore, obj);
        var es, listed := EnumerateChildren(h, obj, false);
        if !listed {
          CollectingGap(h, root, stack, order);
          return result, false;
        }
        stack := stack[..|stack| - 1] + ChildrenOf(es);
        result := AddRecords(h, result, obj, es);
        MoreRecords(h, order, obj);
        order := order + [obj];
      } else {
        assert seen.objects == seenBefore;
        CollectingSkips(h, root, stack, order);
        stack := stack[..|stack| - 1];
      }
    }
    CollectedAll(h, root, order);
    NothingUnlisted(h, root, order);
    defined := true;
    CollectingFacts(h, root, stack, order);
    forall c, x: Record
      ensures multiset(Lookup(result, c))[x] ==
              if IsObject(h, x.parent) && Reaches(h, Everything, root, x.parent)
              then |Leading(h, x.parent, Edges(h, x.parent, false), c, x.item)| else 0
    {
      AllRecordsCount(h, order, c, x);
    }
  }

  lemma NoRecords(h: Heap)
    ensures forall c :: AllRecords(h, [], c) == []
  {
  }

  lemma MoreRecords(h: Heap, order: seq<Ref>, r: Ref)
    requires forall x | x in order + [r] :: IsObject(h, x)
    ensures forall x | x in order :: x in order + [r]
    ensures r in order + [r]
    ensures forall c ::
              AllRecords(h, order + [r], c) == AllRecords(h, order, c) + RecordsOf(h, r, Edges(h, r, false), c)
  {
    hide RecordsOf, Edges;
    assert (order + [r])[..|order + [r]| - 1] == order;
  }
}

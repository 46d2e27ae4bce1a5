/**
 Python wrappers of Blue objects: the index of live wrappers, the pool of unused ones and the
 back pointers in the objects' lock data.

 Destructors, weak reference callbacks and the destroy handlers of wrappers run arbitrary code, here
 a finite script of actions that may nest; an action no correct client could take does nothing.
 Addresses of freed objects and of deleted wrappers may be used again.

 A wrapper whose destroy handler runs is `condemned`: Python has no reference to it, but it is still
 indexed; its `refs` stay at one, for the teardown. Wrapping its object again in the handler hands
 it out once more. From then on it is a wrapper like others, and that one is Python's reference; but
 the teardown that ran the handler goes on. A run stops there, at the first such teardown.
 */
module WrapperPool {

  import opened Basics

  type Wrapper = nat

  /** Only the object at the start of an allocation has lock data; others are locked through it. */
  datatype Addr = Addr(block: nat, off: int)

  datatype Block = Block(locks: int, wrapper: Option<Wrapper>)

  datatype Action =
    | Allocate(b: nat)
    | TakeLock(b: nat)
    | DropLock(b: nat)
    | Wrap(a: Addr)
    | IncRef(w: Wrapper)
    | DecRef(w: Wrapper)
    | Flush
    | Return

  /**
   Besides the program's state: what is being destroyed (`dying`), wrappers out of the index and not
   yet returned (`limbo`), the condemned wrappers, each with the number of its teardown, how many
   teardowns there were, and those of them whose handler wrapped its own object (`handed`).
   */
  datatype State = State(
    blocks: map<nat, Block>,
    wrappers: map<Addr, Wrapper>,
    cache: seq<Wrapper>,
    refs: map<Wrapper, int>,
    obj: map<Wrapper, Addr>,
    clients: map<nat, int>,
    dying: set<nat>,
    limbo: set<Wrapper>,
    condemned: map<Wrapper, nat>,
    frames: nat,
    handed: set<nat>)

  const MAX_WRAPPER_CACHE := 100

  function HasLockData(a: Addr): bool { a.off == 0 }

  /** The objects of an allocation that have a live wrapper. */
  ghost function WrappedIn(wrappers: map<Addr, Wrapper>, b: nat): set<Addr> {
    set a | a in wrappers && a.block == b
  }

  // ---------- invariant ----------

  ghost predicate Domains(s: State) {
    s.refs.Keys == s.obj.Keys && s.clients.Keys == s.blocks.Keys && s.dying <= s.blocks.Keys
  }

  /** The pool holds unused wrappers, each once, and never more than its maximum. */
  ghost predicate PoolOk(s: State) {
    && NoDup(s.cache) && |s.cache| <= MAX_WRAPPER_CACHE
    && (forall w | w in s.cache :: w in s.refs && s.refs[w] == 0 && w !in s.limbo)
    && (forall w | w in s.limbo :: w in s.refs && s.refs[w] == 0)
  }

  /** The index holds exactly the wrappers Python refers to; no wrapper is lost. */
  ghost predicate IndexOk(s: State)
    requires s.refs.Keys == s.obj.Keys
  {
    && (forall a | a in s.wrappers :: s.wrappers[a] in s.refs && s.refs[s.wrappers[a]] > 0
                                      && s.obj[s.wrappers[a]] == a && a.block in s.blocks)
    && (forall w | w in s.refs && s.refs[w] != 0 :: s.obj[w] in s.wrappers && s.wrappers[s.obj[w]] == w)
    && (forall w | w in s.refs && s.refs[w] == 0 :: w in s.cache || w in s.limbo)
  }

  function Indexed(wrappers: map<Addr, Wrapper>, a: Addr): Option<Wrapper> {
    if a in wrappers then Some(wrappers[a]) else None
  }

  ghost predicate LockDataOk(s: State) {
    forall b | b in s.blocks :: s.blocks[b].wrapper == Indexed(s.wrappers, Addr(b, 0))
  }

  /** Every lock is a client's or a live wrapper's; what has none is being destroyed. */
  ghost predicate LocksOk(s: State)
    requires s.clients.Keys == s.blocks.Keys
  {
    && (forall b | b in s.blocks :: s.clients[b] >= 0)
    && (forall b | b in s.blocks :: s.blocks[b].locks == s.clients[b] + |WrappedIn(s.wrappers, b)|)
    && (forall b | b in s.blocks :: s.blocks[b].locks == 0 <==> b in s.dying)
  }

  ghost predicate CondemnedOk(s: State) {
    && (forall w | w in s.condemned :: w in s.refs && s.refs[w] == 1
                                       && s.condemned[w] < s.frames && s.condemned[w] !in s.handed)
    && (forall v, w | v in s.condemned && w in s.condemned && v != w :: s.condemned[v] != s.condemned[w])
    && (forall f | f in s.handed :: f < s.frames)
  }

  ghost predicate Inv(s: State) {
    Domains(s) && PoolOk(s) && IndexOk(s) && LockDataOk(s) && LocksOk(s) && CondemnedOk(s)
  }

  /** An object has at most one live wrapper. */
  lemma OneWrapper(s: State, v: Wrapper, w: Wrapper)
    requires Inv(s) && v in s.refs && w in s.refs && s.refs[v] > 0 && s.refs[w] > 0
    ensures s.obj[v] == s.obj[w] ==> v == w
    ensures v !in s.cache
  {
  }

  lemma EmptyCard(x: set<Addr>, a: Addr)
    requires |x| == 0
    ensures a !in x
  {
  }

  /** An object being destroyed, and everything embedded in it, has no wrapper. */
  lemma DyingUnwrapped(s: State, a: Addr)
    requires Inv(s) && a.block in s.dying
    ensures a !in s.wrappers && s.blocks[a.block].wrapper == None
  {
    EmptyCard(WrappedIn(s.wrappers, a.block), a);
    EmptyCard(WrappedIn(s.wrappers, a.block), Addr(a.block, 0));
  }

  /** A wrapped object is alive. */
  lemma WrappedLives(s: State, a: Addr)
    requires Inv(s) && a in s.wrappers
    ensures a.block in s.blocks && a.block in s.clients && a.block !in s.dying
    ensures s.blocks[a.block].locks > 0 && s.blocks[a.block].locks > s.clients[a.block]
  {
    assert a in WrappedIn(s.wrappers, a.block);
  }

  lemma WrapperAdded(wrappers: map<Addr, Wrapper>, a: Addr, w: Wrapper, b: nat)
    requires a !in wrappers
    ensures |WrappedIn(wrappers[a := w], b)| == |WrappedIn(wrappers, b)| + if a.block == b then 1 else 0
  {
    if a.block == b {
      assert WrappedIn(wrappers[a := w], b) == WrappedIn(wrappers, b) + {a};
    } else {
      assert WrappedIn(wrappers[a := w], b) == WrappedIn(wrappers, b);
    }
  }

  lemma WrapperRemoved(wrappers: map<Addr, Wrapper>, a: Addr, b: nat)
    requires a in wrappers
    ensures |WrappedIn(wrappers - {a}, b)| == |WrappedIn(wrappers, b)| - if a.block == b then 1 else 0
  {
    if a.block == b {
      assert WrappedIn(wrappers, b) == WrappedIn(wrappers - {a}, b) + {a};
    } else {
      assert WrappedIn(wrappers, b) == WrappedIn(wrappers - {a}, b);
    }
  }

  // ---------- transitions ----------

  function Pointing(s: State, a: Addr, w: Option<Wrapper>): map<nat, Block>
    requires a.block in s.blocks
  {
    if HasLockData(a) then s.blocks[a.block := s.blocks[a.block].(wrapper := w)] else s.blocks
  }

  function Locked(blocks: map<nat, Block>, b: nat, n: int): map<nat, Block>
    requires b in blocks
  {
    blocks[b := blocks[b].(locks := blocks[b].locks + n)]
  }

  /** `w`, from the pool or new, becomes the wrapper of `a`. */
  function Wrapped(s: State, a: Addr, w: Wrapper, cache: seq<Wrapper>): State
    requires a.block in s.blocks
  {
    s.(wrappers := s.wrappers[a := w], blocks := Locked(Pointing(s, a, Some(w)), a.block, 1),
       refs := s.refs[w := 1], obj := s.obj[w := a], cache := cache)
  }

  /** The last Python reference of `w` is gone; its lock is about to be released. */
  function Unwrapped(s: State, a: Addr, w: Wrapper): State
    requires a.block in s.blocks && a.block in s.clients
  {
    s.(wrappers := s.wrappers - {a}, blocks := Pointing(s, a, None), refs := s.refs[w := 0],
       clients := s.clients[a.block := s.clients[a.block] + 1], limbo := s.limbo + {w})
  }

  lemma WrappedLocks(s: State, a: Addr, w: Wrapper, cache: seq<Wrapper>)
    requires Inv(s) && a !in s.wrappers && a.block in s.blocks && a.block !in s.dying
    ensures LocksOk(Wrapped(s, a, w, cache))
  {
    var t := Wrapped(s, a, w, cache);
    forall b | b in t.blocks ensures t.blocks[b].locks == t.clients[b] + |WrappedIn(t.wrappers, b)| {
      WrapperAdded(s.wrappers, a, w, b);
    }
  }

  /** `w` comes from the end of the pool, or is new when the pool is empty. */
  ghost predicate Obtained(s: State, w: Wrapper, cache: seq<Wrapper>) {
    if s.cache == [] then w !in s.refs && cache == [] else s.cache == cache + [w]
  }

  lemma WrappedPool(s: State, a: Addr, w: Wrapper, cache: seq<Wrapper>)
    requires PoolOk(s) && a.block in s.blocks && Obtained(s, w, cache)
    ensures PoolOk(Wrapped(s, a, w, cache))
    ensures w in s.refs ==> s.refs[w] == 0
    ensures w !in s.limbo && forall v | v in s.cache && v != w :: v in cache
  {
    assert forall i | 0 <= i < |cache| :: cache[i] == s.cache[i];
    if s.cache != [] { assert s.cache[|cache|] == w; }
  }

  lemma WrappedIndex(s: State, a: Addr, w: Wrapper, cache: seq<Wrapper>)
    requires s.refs.Keys == s.obj.Keys && IndexOk(s) && a !in s.wrappers && a.block in s.blocks
    requires (w in s.refs ==> s.refs[w] == 0) && forall v | v in s.cache && v != w :: v in cache
    ensures IndexOk(Wrapped(s, a, w, cache))
  {
  }

  lemma WrappedLockData(s: State, a: Addr, w: Wrapper, cache: seq<Wrapper>)
    requires LockDataOk(s) && a.block in s.blocks
    ensures LockDataOk(Wrapped(s, a, w, cache))
  {
  }

  lemma WrappedCondemned(s: State, a: Addr, w: Wrapper, cache: seq<Wrapper>)
    requires PoolOk(s) && CondemnedOk(s) && a.block in s.blocks && Obtained(s, w, cache)
    ensures CondemnedOk(Wrapped(s, a, w, cache))
  {
    hide NoDup;
    if s.cache != [] { assert s.cache[|cache|] == w; }
  }

  lemma WrappedKeeps(s: State, a: Addr, w: Wrapper, cache: seq<Wrapper>)
    requires Inv(s) && a !in s.wrappers && a.block in s.blocks && a.block !in s.dying && Obtained(s, w, cache)
    ensures Inv(Wrapped(s, a, w, cache))
  {
    hide PoolOk, IndexOk, LocksOk, LockDataOk, Obtained, CondemnedOk;
    WrappedCondemned(s, a, w, cache);
    WrappedLockData(s, a, w, cache);
    WrappedLocks(s, a, w, cache);
    WrappedPool(s, a, w, cache);
    WrappedIndex(s, a, w, cache);
  }

  lemma CondemnedSame(s: State, t: State)
    requires CondemnedOk(s) && t.condemned == s.condemned && t.frames == s.frames && t.handed == s.handed
    requires forall w | w in s.condemned && w in s.refs && s.refs[w] == 1 :: w in t.refs && t.refs[w] == 1
    ensures CondemnedOk(t)
  {
  }

  /** Nothing else depends on what is condemned. */
  lemma FramesOnly(s: State, t: State)
    requires Inv(s) && t == s.(condemned := t.condemned, frames := t.frames, handed := t.handed)
    requires CondemnedOk(t)
    ensures Inv(t)
  {
    hide CondemnedOk, NoDup;
    LocksSame(s, t);
  }

  lemma UnwrappedLocks(s: State, a: Addr, w: Wrapper)
    requires Inv(s) && a in s.wrappers && a.block in s.blocks && a.block in s.clients
    ensures LocksOk(Unwrapped(s, a, w))
  {
    hide PoolOk, IndexOk, LockDataOk, CondemnedOk;
    var t := Unwrapped(s, a, w);
    WrappedLives(s, a);
    forall b | b in t.blocks ensures t.blocks[b].locks == t.clients[b] + |WrappedIn(t.wrappers, b)| {
      WrapperRemoved(s.wrappers, a, b);
    }
  }

  lemma UnwrappedPool(s: State, a: Addr, w: Wrapper)
    requires PoolOk(s) && w in s.refs && s.refs[w] == 1 && a.block in s.blocks && a.block in s.clients
    ensures PoolOk(Unwrapped(s, a, w)) && w !in s.limbo
  {
  }

  lemma UnwrappedIndex(s: State, a: Addr, w: Wrapper)
    requires s.refs.Keys == s.obj.Keys && IndexOk(s) && w in s.refs && s.refs[w] == 1 && s.obj[w] == a
    ensures a in s.wrappers && s.wrappers[a] == w && a.block in s.blocks
    ensures a.block in s.clients ==> IndexOk(Unwrapped(s, a, w))
  {
  }

  lemma UnwrappedKeeps(s: State, a: Addr, w: Wrapper)
    requires Inv(s) && w in s.refs && s.refs[w] == 1 && s.obj[w] == a && w !in s.condemned
    ensures a in s.wrappers && s.wrappers[a] == w && a.block in s.blocks && a.block in s.clients
    ensures Inv(Unwrapped(s, a, w)) && s.blocks[a.block].locks > 0 && w !in s.limbo
  {
    hide PoolOk, IndexOk, LocksOk, WrappedIn, CondemnedOk;
    UnwrappedIndex(s, a, w);
    CondemnedSame(s, Unwrapped(s, a, w));
    UnwrappedPool(s, a, w);
    UnwrappedLocks(s, a, w);
    WrappedLives(s, a);
  }

  lemma CondemnedKeeps(s: State, w: Wrapper)
    requires Inv(s) && w in s.refs && s.refs[w] == 1 && w !in s.condemned
    ensures Inv(Condemned(s, w))
  {
    hide PoolOk, IndexOk, LocksOk, LockDataOk;
    FramesOnly(s, Condemned(s, w));
  }

  /** A teardown begins. */
  function Condemned(s: State, w: Wrapper): State {
    s.(condemned := s.condemned[w := s.frames], frames := s.frames + 1)
  }

  /** A condemned wrapper is handed out again: the one reference is Python's now. */
  function Rewrapped(s: State, w: Wrapper): State
    requires w in s.condemned
  {
    s.(condemned := s.condemned - {w}, handed := s.handed + {s.condemned[w]})
  }

  lemma RewrappedKeeps(s: State, w: Wrapper)
    requires Inv(s) && w in s.condemned
    ensures Inv(Rewrapped(s, w)) && w in s.refs && s.refs[w] == 1
  {
    hide PoolOk, IndexOk, LocksOk, LockDataOk;
    FramesOnly(s, Rewrapped(s, w));
  }

  /** A handler has returned with its wrapper still condemned. */
  lemma AcquittedKeeps(s: State, w: Wrapper)
    requires Inv(s) && w in s.condemned
    ensures w in s.refs && s.refs[w] == 1 && Inv(s.(condemned := s.condemned - {w}))
  {
    hide PoolOk, IndexOk, LocksOk, LockDataOk;
    FramesOnly(s, s.(condemned := s.condemned - {w}));
  }

  // ---------- the second half of a teardown ----------

  /** The memory that a teardown uses is still there. */
  ghost predicate Accessible(s: State, w: Wrapper) {
    w in s.refs && w in s.obj && s.obj[w].block in s.blocks && s.obj[w].block in s.clients
  }

  /**
   What a teardown does after its handler: lock data and index are cleared, the lock is the teardown's
   to release, and the wrapper is about to be returned, with the references that Python has to it.
   */
  function TornDown(s: State, w: Wrapper): State
    requires w in s.refs && w in s.obj && s.obj[w].block in s.blocks && s.obj[w].block in s.clients
  {
    var a := s.obj[w];
    s.(wrappers := s.wrappers - {a}, blocks := Pointing(s, a, None),
       refs := if w in s.condemned then s.refs[w := 0] else s.refs,
       clients := s.clients[a.block := s.clients[a.block] + 1], limbo := s.limbo + {w},
       condemned := if w in s.condemned then s.condemned - {w} else s.condemned)
  }

  lemma CondemnedAccessible(s: State, w: Wrapper)
    requires Inv(s) && w in s.condemned
    ensures Accessible(s, w) && w !in s.limbo && s.obj[w] in s.wrappers && s.wrappers[s.obj[w]] == w
    ensures s.blocks[s.obj[w].block].locks > 0
  {
    WrappedLives(s, s.obj[w]);
  }

  lemma TornDownKeeps(s: State, w: Wrapper)
    requires Inv(s) && w in s.condemned
    ensures Accessible(s, w) && Inv(TornDown(s, w))
  {
    hide PoolOk, IndexOk, LocksOk, LockDataOk, CondemnedOk;
    CondemnedAccessible(s, w);
    AcquittedKeeps(s, w);
    var t := s.(condemned := s.condemned - {w});
    UnwrappedKeeps(t, s.obj[w], w);
    assert TornDown(s, w) == Unwrapped(t, s.obj[w], w);
  }

  /**
   A teardown keeps the invariant exactly when its wrapper is still condemned after the handler, that is
   when the handler has not wrapped the object again, whatever it did with the wrapper afterwards.
   */
  lemma TornDownExactly(s: State, w: Wrapper)
    requires Inv(s) && Accessible(s, w) && w !in s.limbo
    ensures Inv(TornDown(s, w)) <==> w in s.condemned
  {
    hide LocksOk, LockDataOk, CondemnedOk, NoDup;
    if w in s.condemned {
      TornDownKeeps(s, w);
    } else {
      assert w in TornDown(s, w).limbo;
      if s.refs[w] == 0 { assert w in s.cache; }
    }
  }

  /** The wrapper goes into the pool, if there is room. */
  function Returned(s: State, w: Wrapper): State {
    s.(cache := s.cache + [w], limbo := s.limbo - {w})
  }

  /** A handler that wraps its object and keeps the reference: the pool gets a wrapper that Python uses. */
  lemma KeptReference(s: State, w: Wrapper)
    requires Inv(s) && w in s.refs && s.refs[w] == 1 && w !in s.condemned
    ensures var h := Rewrapped(Condemned(s, w), w);
            && Inv(h) && h.refs[w] == 1 && Accessible(h, w)
            && var t := Returned(TornDown(h, w), w); w in t.cache && t.refs[w] == 1 && !PoolOk(t)
  {
    hide PoolOk, IndexOk, LocksOk, LockDataOk, NoDup;
    CondemnedKeeps(s, w);
    CondemnedAccessible(Condemned(s, w), w);
    RewrappedKeeps(Condemned(s, w), w);
    PoolHasUnused(Returned(TornDown(Rewrapped(Condemned(s, w), w), w), w), w);
  }

  lemma PoolHasUnused(t: State, w: Wrapper)
    requires w in t.cache && w in t.refs && t.refs[w] != 0
    ensures !PoolOk(t)
  {
    hide NoDup;
  }

  /** The whole second half, for an object that has other locks and a pool that has room. */
  function Finished(s: State, w: Wrapper): State
    requires w in s.refs && w in s.obj && s.obj[w].block in s.blocks && s.obj[w].block in s.clients
  {
    Returned(ClientLocked(TornDown(s, w), s.obj[w].block, -1), w)
  }

  lemma FinishedKeeps(s: State, w: Wrapper)
    requires Inv(s) && w in s.condemned && |s.cache| < MAX_WRAPPER_CACHE
    ensures Accessible(s, w) && s.blocks[s.obj[w].block].locks > 0
    ensures s.blocks[s.obj[w].block].locks > 1 ==> Inv(Finished(s, w))
  {
    hide Inv;
    CondemnedAccessible(s, w);
    TornDownKeeps(s, w);
    var b := s.obj[w].block;
    if s.blocks[b].locks > 1 {
      Known(TornDown(s, w), b);
      Known(s, b);
      ClientLockedKeeps(TornDown(s, w), b, -1);
      ReturnedKeeps(ClientLocked(TornDown(s, w), b, -1), w);
    }
  }

  /**
   A handler that wraps its object and drops the reference again: the wrapper is torn down within the
   handler, which keeps the invariant, and then once more. No reference is left, but one lock too many
   is released and the wrapper is in the pool twice.
   */
  lemma DroppedReference(s: State, w: Wrapper)
    requires Inv(s) && w in s.refs && s.refs[w] == 1 && w !in s.condemned && |s.cache| < MAX_WRAPPER_CACHE
    requires w in s.obj && s.obj[w].block in s.blocks && s.blocks[s.obj[w].block].locks > 1
    ensures var h := Condemned(Rewrapped(Condemned(s, w), w), w);
            && Accessible(h, w) && var n := Finished(h, w);
            && Inv(n) && n.refs[w] == 0 && Accessible(n, w) && var t := Finished(n, w);
            && !Inv(t) && t.refs[w] == 0 && t.cache == s.cache + [w, w] && !NoDup(t.cache)
            && t.blocks[s.obj[w].block].locks
                 == t.clients[s.obj[w].block] + |WrappedIn(t.wrappers, s.obj[w].block)| - 1
  {
    hide Inv, WrappedIn, NoDup;
    CondemnedKeeps(s, w);
    RewrappedKeeps(Condemned(s, w), w);
    var g := Rewrapped(Condemned(s, w), w);
    CondemnedKeeps(g, w);
    var h := Condemned(g, w);
    FinishedKeeps(h, w);
    FinishedAgain(Finished(h, w), w);
    Twice(s.cache, w);
  }

  lemma FinishedAgain(n: State, w: Wrapper)
    requires Inv(n) && Accessible(n, w) && n.obj[w] !in n.wrappers && w !in n.condemned && w in n.cache
    ensures var t := Finished(n, w); var b := n.obj[w].block;
            && !Inv(t) && t.refs == n.refs && t.cache == n.cache + [w]
            && t.blocks[b].locks == t.clients[b] + |WrappedIn(t.wrappers, b)| - 1
  {
    hide PoolOk, IndexOk, LocksOk, LockDataOk, CondemnedOk, WrappedIn, NoDup;
    var t := Finished(n, w);
    OwedLocks(n, n.obj[w].block);
    assert t.wrappers == n.wrappers;
    PoolIsSet(t);
    AddedTwice(n.cache, w);
  }

  lemma AddedTwice(cache: seq<Wrapper>, w: Wrapper)
    requires w in cache
    ensures !NoDup(cache + [w])
  {
    var i :| 0 <= i < |cache| && cache[i] == w;
    assert (cache + [w])[i] == (cache + [w])[|cache|];
  }

  lemma Twice(cache: seq<Wrapper>, w: Wrapper)
    ensures cache + [w] + [w] == cache + [w, w] && !NoDup(cache + [w, w])
  {
    assert (cache + [w, w])[|cache|] == (cache + [w, w])[|cache| + 1];
  }

  lemma PoolIsSet(t: State)
    ensures Inv(t) ==> NoDup(t.cache)
  {
    hide NoDup, IndexOk, LocksOk, LockDataOk, CondemnedOk;
  }

  lemma OwedLocks(s: State, b: nat)
    requires Inv(s) && b in s.blocks
    ensures b in s.clients && s.blocks[b].locks == s.clients[b] + |WrappedIn(s.wrappers, b)|
  {
    hide NoDup, IndexOk, PoolOk, LockDataOk, CondemnedOk;
  }

  /** Locks and lock data do not depend on the wrappers' own state. */
  lemma LocksSame(s: State, t: State)
    requires s.clients.Keys == s.blocks.Keys
    requires t == s.(cache := t.cache, refs := t.refs, obj := t.obj, limbo := t.limbo,
                     condemned := t.condemned, frames := t.frames, handed := t.handed)
    ensures LocksOk(s) ==> LocksOk(t)
    ensures LockDataOk(s) ==> LockDataOk(t)
  {
  }

  /** The pool and the index do not depend on the locks, as long as what is wrapped is there. */
  lemma PoolSame(s: State, t: State)
    requires s.refs.Keys == s.obj.Keys
    requires t == s.(blocks := t.blocks, clients := t.clients, dying := t.dying)
    requires forall a | a in s.wrappers :: a.block in s.blocks ==> a.block in t.blocks
    ensures PoolOk(s) ==> PoolOk(t)
    ensures IndexOk(s) ==> IndexOk(t)
  {
  }

  lemma CountedKeeps(s: State, w: Wrapper, n: int)
    requires Inv(s) && w in s.refs && s.refs[w] > 0 && s.refs[w] + n > 0 && w !in s.condemned
    ensures Inv(s.(refs := s.refs[w := s.refs[w] + n]))
  {
    hide LocksOk, LockDataOk, PoolOk, IndexOk, CondemnedOk;
    CountedPool(s, w, n);
    LocksSame(s, s.(refs := s.refs[w := s.refs[w] + n]));
    CondemnedSame(s, s.(refs := s.refs[w := s.refs[w] + n]));
  }

  lemma CountedPool(s: State, w: Wrapper, n: int)
    requires s.refs.Keys == s.obj.Keys && PoolOk(s) && IndexOk(s)
    requires w in s.refs && s.refs[w] > 0 && s.refs[w] + n > 0
    ensures PoolOk(s.(refs := s.refs[w := s.refs[w] + n])) && IndexOk(s.(refs := s.refs[w := s.refs[w] + n]))
  {
    hide NoDup;
  }

  lemma ReturnedKeeps(s: State, w: Wrapper)
    requires Inv(s) && w in s.limbo && |s.cache| < MAX_WRAPPER_CACHE
    ensures Inv(s.(cache := s.cache + [w], limbo := s.limbo - {w}))
  {
    hide LocksOk, LockDataOk;
    LocksSame(s, s.(cache := s.cache + [w], limbo := s.limbo - {w}));
  }

  lemma DeletedKeeps(s: State, w: Wrapper)
    requires Inv(s) && w in s.limbo
    ensures Inv(s.(refs := s.refs - {w}, obj := s.obj - {w}, limbo := s.limbo - {w}))
  {
    hide LocksOk, LockDataOk, IndexOk, PoolOk, CondemnedOk;
    DeletedPool(s, w);
    LocksSame(s, s.(refs := s.refs - {w}, obj := s.obj - {w}, limbo := s.limbo - {w}));
    CondemnedSame(s, s.(refs := s.refs - {w}, obj := s.obj - {w}, limbo := s.limbo - {w}));
  }

  lemma DeletedPool(s: State, w: Wrapper)
    requires s.refs.Keys == s.obj.Keys && PoolOk(s) && IndexOk(s) && w in s.limbo
    ensures var t := s.(refs := s.refs - {w}, obj := s.obj - {w}, limbo := s.limbo - {w});
            PoolOk(t) && t.refs.Keys == t.obj.Keys && IndexOk(t) && w in s.refs && s.refs[w] == 0
  {
    hide NoDup;
  }

  /** What taking the last wrapper off the pool leaves in it. */
  lemma PoolShrinks(cache: seq<Wrapper>)
    requires NoDup(cache) && cache != []
    ensures NoDup(cache[..|cache| - 1])
    ensures forall v :: v in cache[..|cache| - 1] <==> v in cache && v != cache[|cache| - 1]
  {
    assert cache == cache[..|cache| - 1] + [cache[|cache| - 1]];
  }

  lemma FlushedKeeps(s: State)
    requires Inv(s) && s.cache != []
    ensures s.cache[|s.cache| - 1] in s.refs
    ensures Inv(s.(cache := s.cache[..|s.cache| - 1],
                   refs := s.refs - {s.cache[|s.cache| - 1]}, obj := s.obj - {s.cache[|s.cache| - 1]}))
  {
    hide LocksOk, LockDataOk, NoDup, CondemnedOk;
    var n := |s.cache| - 1;
    var w := s.cache[n];
    PoolShrinks(s.cache);
    LocksSame(s, s.(cache := s.cache[..n], refs := s.refs - {w}, obj := s.obj - {w}));
    CondemnedSame(s, s.(cache := s.cache[..n], refs := s.refs - {w}, obj := s.obj - {w}));
  }

  function ClientLocked(s: State, b: nat, n: int): State
    requires b in s.blocks && b in s.clients
  {
    s.(blocks := Locked(s.blocks, b, n), clients := s.clients[b := s.clients[b] + n])
  }

  lemma ClientLockedLocks(s: State, b: nat, n: int)
    requires Domains(s) && LocksOk(s) && b in s.blocks && s.clients[b] + n >= 0 && b !in s.dying
        && s.blocks[b].locks + n > 0
    ensures LocksOk(ClientLocked(s, b, n))
  {
  }

  lemma ClientLockedKeeps(s: State, b: nat, n: int)
    requires Inv(s) && b in s.blocks && s.clients[b] + n >= 0 && b !in s.dying && s.blocks[b].locks + n > 0
    ensures Inv(ClientLocked(s, b, n))
  {
    hide PoolOk, IndexOk, LocksOk;
    ClientLockedLocks(s, b, n);
    PoolSame(s, ClientLocked(s, b, n));
  }

  lemma StartDyingLocks(s: State, b: nat)
    requires Domains(s) && LocksOk(s) && b in s.blocks && s.clients[b] > 0 && s.blocks[b].locks == 1
    ensures b !in s.dying && LocksOk(ClientLocked(s, b, -1).(dying := s.dying + {b}))
  {
  }

  /** The last lock is gone. */
  lemma StartDying(s: State, b: nat)
    requires Inv(s) && b in s.blocks && s.clients[b] > 0 && s.blocks[b].locks == 1
    ensures b !in s.dying && Inv(ClientLocked(s, b, -1).(dying := s.dying + {b}))
  {
    hide PoolOk, IndexOk, LocksOk;
    StartDyingLocks(s, b);
    PoolSame(s, ClientLocked(s, b, -1).(dying := s.dying + {b}));
  }

  lemma FreedKeeps(s: State, b: nat)
    requires Inv(s) && b in s.dying
    ensures Inv(s.(blocks := s.blocks - {b}, clients := s.clients - {b}, dying := s.dying - {b}))
  {
    hide PoolOk, IndexOk, CondemnedOk;
    forall a | a in s.wrappers ensures a.block in s.blocks && a.block != b {
      WrappedLives(s, a);
    }
    CondemnedSame(s, s.(blocks := s.blocks - {b}, clients := s.clients - {b}, dying := s.dying - {b}));
    PoolSame(s, s.(blocks := s.blocks - {b}, clients := s.clients - {b}, dying := s.dying - {b}));
  }

  lemma AllocatedLocks(s: State, b: nat)
    requires Domains(s) && LocksOk(s) && LockDataOk(s) && b !in s.blocks && forall a | a in s.wrappers ::
        a.block in s.blocks
    ensures LocksOk(s.(blocks := s.blocks[b := Block(1, None)], clients := s.clients[b := 1]))
    ensures LockDataOk(s.(blocks := s.blocks[b := Block(1, None)], clients := s.clients[b := 1]))
  {
    assert WrappedIn(s.wrappers, b) == {};
    assert Addr(b, 0) !in s.wrappers;
  }

  lemma AllocatedKeeps(s: State, b: nat)
    requires Inv(s) && b !in s.blocks
    ensures Inv(s.(blocks := s.blocks[b := Block(1, None)], clients := s.clients[b := 1]))
  {
    hide PoolOk, IndexOk, LocksOk, LockDataOk;
    forall a | a in s.wrappers ensures a.block in s.blocks {
      WrappedLives(s, a);
    }
    AllocatedLocks(s, b);
    PoolSame(s, s.(blocks := s.blocks[b := Block(1, None)], clients := s.clients[b := 1]));
  }

  // ---------- the pool ----------

  /**
   Calls are balanced: what is being destroyed or returned around a callback still is, and what is
   condemned still is, unless a handler wrapped it; no other teardown's handler wrapped its object.
   */
  ghost predicate Step(s: State, t: State) {
    && s.dying == t.dying && s.limbo == t.limbo && s.frames <= t.frames && s.handed <= t.handed
    && (forall w | w in t.condemned :: w in s.condemned && t.condemned[w] == s.condemned[w])
    && (forall w | w in s.condemned :: w in t.condemned <==> s.condemned[w] !in t.handed)
    && (forall f | f in t.handed :: f in s.handed || exists w :: w in s.condemned && s.condemned[w] == f)
  }

  /** A teardown went on although its handler had wrapped the object: memory that is gone, or a broken state. */
  ghost predicate Damaged(t: State, w: Wrapper) {
    !Accessible(t, w) || !Inv(t)
  }

  /**
   After a call: all is well and no handler run in it wrapped the object it was run for, or some
   handler did, and the run stopped with the damage its teardown did.
   */
  ghost predicate Outcome(s: State, t: State, failed: Option<Wrapper>) {
    if failed.None? then Inv(t) && Step(s, t)
    else Damaged(t, failed.value) && exists f :: f in t.handed && f >= s.frames
  }

  lemma OutcomeIs(s: State, t: State, failed: Option<Wrapper>)
    requires Outcome(s, t, failed)
    ensures failed.None? ==> Inv(t) && Step(s, t)
  {
  }

  lemma OutcomeSame(s: State)
    requires Inv(s)
    ensures Outcome(s, s, None)
  {
    hide Inv;
    StepSame(s);
  }

  lemma StepSame(s: State)
    requires Inv(s)
    ensures Step(s, s)
  {
  }

  lemma StepTrans(s: State, t: State, u: State)
    requires Step(s, t) && Step(t, u)
    ensures Step(s, u)
  {
    forall f | f in u.handed && f !in s.handed ensures exists w :: w in s.condemned && s.condemned[w] == f {
      if f !in t.handed {
        var w :| w in t.condemned && t.condemned[w] == f;
        assert w in s.condemned && s.condemned[w] == f;
      }
    }
  }

  lemma OutcomeTrans(s: State, t: State, u: State, failed: Option<Wrapper>)
    requires Step(s, t) && Outcome(t, u, failed)
    ensures Outcome(s, u, failed)
  {
    hide Damaged, Inv;
    if failed.None? {
      StepTrans(s, t, u);
    } else {
      var f :| f in u.handed && f >= t.frames;
      assert f >= s.frames;
    }
  }

  lemma Known(s: State, b: nat)
    requires Inv(s) && b in s.blocks
    ensures b in s.clients && s.clients[b] >= 0 && (s.blocks[b].locks > 0 <==> b !in s.dying)
    ensures s.clients[b] > 0 ==> s.blocks[b].locks > 0
  {
  }

  lemma DyingKnown(s: State, b: nat)
    requires Inv(s) && b in s.dying
    ensures b in s.blocks && b in s.clients
  {
  }

  lemma LimboKnown(s: State, w: Wrapper)
    requires Inv(s) && w in s.limbo
    ensures w in s.refs && w in s.obj
  {
  }

  lemma Pointers(s: State, a: Addr)
    requires Inv(s) && a.block in s.blocks
    ensures HasLockData(a) ==> s.blocks[a.block].wrapper == Indexed(s.wrappers, a)
    ensures a in s.wrappers ==> s.wrappers[a] in s.refs && s.wrappers[a] in s.obj
                                && s.refs[s.wrappers[a]] > 0 && s.obj[s.wrappers[a]] == a
  {
    assert HasLockData(a) ==> a == Addr(a.block, 0);
  }

  lemma {:induction false} Bound(x: set<nat>) returns (n: nat)
    ensures forall w | w in x :: w < n
  {
    if x == {} {
      n := 0;
    } else {
      var w :| w in x;
      var k := Bound(x - {w});
      n := if w < k then k else w + 1;
      assert forall v | v in x :: v == w || v in x - {w};
    }
  }

  // ---------- what calls leave of teardowns under way ----------

  lemma SameFrames(s: State, t: State)
    requires Inv(s) && Inv(t) && t.dying == s.dying && t.limbo == s.limbo
    requires t.condemned == s.condemned && t.frames == s.frames && t.handed == s.handed
    ensures Outcome(s, t, None)
  {
    hide PoolOk, IndexOk, LocksOk, LockDataOk;
  }

  lemma SameFramesBut(s: State, t: State, b: nat)
    requires Inv(s) && t == s.(blocks := t.blocks, clients := t.clients, dying := s.dying + {b}) && b !in s.dying
    ensures Step(s, t.(dying := t.dying - {b}))
  {
    hide PoolOk, IndexOk, LocksOk, LockDataOk;
    assert s.dying + {b} - {b} == s.dying;
  }

  lemma SameFramesIn(s: State, t: State, u: State, w: Wrapper)
    requires Step(s, t) && Inv(u) && u == t.(cache := u.cache, refs := u.refs, obj := u.obj, limbo := t.limbo - {w})
    ensures Outcome(s.(limbo := s.limbo - {w}), u, None)
  {
    hide Inv;
  }

  lemma SameFramesDead(s: State, t: State, u: State, b: nat)
    requires Step(s, t) && Inv(u) && u == t.(blocks := u.blocks, clients := u.clients, dying := t.dying - {b})
    ensures Outcome(s.(dying := s.dying - {b}), u, None)
  {
    hide Inv;
  }

  lemma RewrappedStep(s: State, w: Wrapper)
    requires Inv(s) && w in s.condemned && Inv(Rewrapped(s, w))
    ensures Outcome(s, Rewrapped(s, w), None)
  {
    hide PoolOk, IndexOk, LocksOk, LockDataOk;
  }

  lemma FailedWithin(s: State, begun: State, t: State, failed: Option<Wrapper>)
    requires failed.Some? && Outcome(begun, t, failed) && begun.frames >= s.frames
    ensures Outcome(s, t, failed)
  {
    hide Damaged, Step, Inv;
    var f :| f in t.handed && f >= begun.frames;
    assert f >= s.frames;
  }

  lemma NotReturning(s: State, w: Wrapper)
    requires Inv(s) && w in s.refs && s.refs[w] == 1
    ensures w !in s.limbo
  {
    hide NoDup;
  }

  lemma StillReturning(s: State, t: State, w: Wrapper)
    requires Step(s, t) && w in s.limbo
    ensures w in t.limbo
  {
  }

  lemma StillDying(s: State, t: State, b: nat)
    requires Step(s, t) && b in s.dying
    ensures b in t.dying
  {
  }

  /**
   A teardown that began in `s` and whose handler left `t`, whatever code that was, keeps the invariant
   exactly when the handler has not wrapped the object again.
   */
  lemma TeardownExactly(s: State, w: Wrapper, t: State)
    requires Inv(s) && w !in s.condemned && w !in s.limbo && Inv(t) && Step(Condemned(s, w), t)
    ensures w !in t.limbo && (w in t.condemned <==> s.frames !in t.handed)
    ensures Accessible(t, w) ==> (Inv(TornDown(t, w)) <==> s.frames !in t.handed)
    ensures w in t.condemned ==> Accessible(t, w) && Inv(TornDown(t, w)) && t.blocks[t.obj[w].block].locks > 0
    ensures w in t.condemned ==> t.clients[t.obj[w].block] >= 0 && t.obj[w].block !in t.dying
  {
    hide Inv, TornDown;
    if Accessible(t, w) { TornDownExactly(t, w); }
    if w in t.condemned {
      CondemnedAccessible(t, w);
      TornDownKeeps(t, w);
      Known(t, t.obj[w].block);
    }
  }

  lemma TornDownFrames(t: State, w: Wrapper)
    requires Accessible(t, w) && w in t.condemned
    ensures var out := TornDown(t, w);
            && out.dying == t.dying && out.limbo == t.limbo + {w} && out.frames == t.frames && out.handed == t.handed
            && out.condemned == t.condemned - {w}
  {
  }

  /** What a teardown leaves if all goes well: everything around it as it was. */
  lemma TeardownStep(s: State, w: Wrapper, t: State)
    requires Inv(s) && w !in s.condemned && w !in s.limbo && Step(Condemned(s, w), t)
    requires w in t.condemned && Accessible(t, w)
    ensures var out := TornDown(t, w); Step(s, out.(limbo := out.limbo - {w}))
  {
    hide PoolOk, IndexOk, LocksOk, LockDataOk, TornDown;
    TornDownFrames(t, w);
    assert t.limbo + {w} - {w} == s.limbo;
  }

  lemma LimboApart(s: State, t: State, w: Wrapper)
    requires Step(s, t)
    ensures Step(s.(limbo := s.limbo - {w}), t.(limbo := t.limbo - {w}))
  {
  }

  lemma LaterFailed(s: State, w: Wrapper, t: State, out: State, u: State, failed: Option<Wrapper>)
    requires Step(Condemned(s, w), t) && failed.Some? && Outcome(out, u, failed) && out.frames == t.frames
    ensures Outcome(s, u, failed)
  {
    hide Inv, Damaged;
    FailedWithin(s, out, u, failed);
  }

  lemma TeardownOutcome(s: State, w: Wrapper, t: State, out: State, released: State, u: State,
                        failed: Option<Wrapper>)
    requires Inv(s) && w !in s.condemned && w !in s.limbo && Step(Condemned(s, w), t)
    requires w in t.condemned && Accessible(t, w) && out == TornDown(t, w) && Step(out, released)
    requires Outcome(released.(limbo := released.limbo - {w}), u, failed)
    ensures Outcome(s, u, failed)
  {
    hide Inv, Damaged, TornDown, Step;
    TeardownStep(s, w, t);
    LimboApart(out, released, w);
    StepTrans(s, out.(limbo := out.limbo - {w}), released.(limbo := released.limbo - {w}));
    OutcomeTrans(s, released.(limbo := released.limbo - {w}), u, failed);
  }

  // ---------- the steps of a run ----------

  /**
   What is under way, innermost last: code outside; a teardown whose handler has to return first, or that
   has released its lock, or whose callbacks have to return first; an object being destroyed.
   */
  datatype Frame = Code | Down(w: Wrapper) | Out(w: Wrapper) | Keeping(w: Wrapper) | Dying(b: nat)

  /**
   What happens in a run: an action, with or without effect; a wrapping, with the wrapper given; the steps
   of a teardown, which may be stopped; an object freed; code outside entered from nowhere, or left.
   */
  datatype Event =
    | Did(action: Action, ok: bool)
    | Gave(a: Addr, w: Wrapper)
    | TakenOut(w: Wrapper)
    | Returning(w: Wrapper)
    | Kept(w: Wrapper)
    | Stopped(w: Wrapper)
    | Freed(b: nat)
    | Entered
    | Left

  datatype Machine = Machine(s: State, script: seq<Action>, stack: seq<Frame>, returning: bool) {
    ghost predicate At(f: Frame) { stack != [] && stack[|stack| - 1] == f }

    function Popped(): seq<Frame> { if stack == [] then [] else stack[..|stack| - 1] }
  }

  /** A correct client takes locks of live objects, drops its own, and refers to wrappers it was given. */
  predicate CanDo(s: State, a: Action) {
    match a
    case Allocate(b) => b !in s.blocks
    case TakeLock(b) => b in s.blocks && b in s.clients && s.blocks[b].locks > 0
    case DropLock(b) => b in s.blocks && b in s.clients && s.clients[b] > 0
    case Wrap(a) => a.block in s.blocks && s.blocks[a.block].locks > 0
    case IncRef(w) => w in s.refs && s.refs[w] > 0 && w !in s.condemned
    case DecRef(w) => w in s.refs && s.refs[w] > 0 && w !in s.condemned
    case Flush => true
    case Return => false
  }

  /** The pool is emptied and its wrappers are gone. */
  function Flushed(s: State): State {
    var gone := set w | w in s.cache;
    s.(cache := [], refs := s.refs - gone, obj := s.obj - gone)
  }

  /** A lock is released; the last one begins the object's end, whose destructor runs first. */
  function Unlocking(m: Machine, b: nat): Machine
    requires b in m.s.blocks && b in m.s.clients
  {
    var s := ClientLocked(m.s, b, -1);
    if m.s.blocks[b].locks == 1 then m.(s := s.(dying := s.dying + {b}), stack := m.stack + [Dying(b), Code])
    else m.(s := s)
  }

  /** A Python reference is dropped; the last one begins a teardown, whose handler runs first. */
  function Dereferencing(m: Machine, w: Wrapper): Machine
    requires w in m.s.refs
  {
    if m.s.refs[w] > 1 then m.(s := m.s.(refs := m.s.refs[w := m.s.refs[w] - 1]))
    else m.(s := Condemned(m.s, w), stack := m.stack + [Down(w), Code])
  }

  function Acting(m: Machine, a: Action): Machine
    requires CanDo(m.s, a) && !a.Wrap?
  {
    var s := m.s;
    match a
    case Allocate(b) => m.(s := s.(blocks := s.blocks[b := Block(1, None)], clients := s.clients[b := 1]))
    case TakeLock(b) => m.(s := ClientLocked(s, b, 1))
    case DropLock(b) => Unlocking(m, b)
    case IncRef(w) => m.(s := s.(refs := s.refs[w := s.refs[w] + 1]))
    case DecRef(w) => Dereferencing(m, w)
    case Flush => m.(s := Flushed(s))
  }

  /** The wrapper that an object gets: the one it has, the last of the pool, or a new one. */
  predicate GivenTo(s: State, a: Addr, w: Wrapper) {
    if a in s.wrappers then w == s.wrappers[a] && w in s.refs
    else if s.cache == [] then w !in s.refs
    else w == s.cache[|s.cache| - 1]
  }

  function Giving(s: State, a: Addr, w: Wrapper): State
    requires a.block in s.blocks && GivenTo(s, a, w)
  {
    if a !in s.wrappers then Wrapped(s, a, w, if s.cache == [] then [] else s.cache[..|s.cache| - 1])
    else if w in s.condemned then Rewrapped(s, w)
    else s.(refs := s.refs[w := s.refs[w] + 1])
  }

  ghost predicate Allowed(m: Machine, e: Event) {
    var s := m.s;
    && (m.returning ==> e == Left)
    && match e
       case Did(a, ok) =>
         m.At(Code) && m.script != [] && m.script[0] == a && (ok <==> CanDo(s, a)) && (a.Wrap? ==> !ok)
       case Gave(a, w) =>
         m.At(Code) && m.script != [] && m.script[0] == Wrap(a) && CanDo(s, Wrap(a)) && GivenTo(s, a, w)
       case TakenOut(w) => m.At(Down(w)) && w in s.condemned && Accessible(s, w)
       case Stopped(w) => m.At(Down(w)) && w !in s.condemned
       case Returning(w) => m.At(Out(w))
       case Kept(w) => m.At(Keeping(w))
       case Freed(b) => m.At(Dying(b))
       case Entered => m.stack == []
       case Left => m.At(Code) && (m.returning || m.script == [])
  }

  ghost function After(m: Machine, e: Event): Machine
    requires Allowed(m, e)
  {
    var s := m.s;
    match e
    case Did(a, ok) =>
      var n := m.(script := m.script[1..], returning := a == Return);
      if ok then Acting(n, a) else n
    case Gave(a, w) => m.(s := Giving(s, a, w), script := m.script[1..])
    case TakenOut(w) => Unlocking(m.(s := TornDown(s, w), stack := m.Popped() + [Out(w)]), s.obj[w].block)
    case Stopped(w) => m.(s := if Accessible(s, w) then TornDown(s, w) else s)
    case Returning(w) => m.(stack := m.Popped() + [Keeping(w), Code])
    case Kept(w) =>
      m.(s := if |s.cache| < MAX_WRAPPER_CACHE then Returned(s, w) else Deleted(s, w), stack := m.Popped())
    case Freed(b) => m.(s := Gone(s, b), stack := m.Popped())
    case Entered => m.(stack := [Code])
    case Left => m.(stack := m.Popped(), returning := false)
  }

  function Gone(s: State, b: nat): State {
    s.(blocks := s.blocks - {b}, clients := s.clients - {b}, dying := s.dying - {b})
  }

  function Deleted(s: State, w: Wrapper): State {
    s.(refs := s.refs - {w}, obj := s.obj - {w}, limbo := s.limbo - {w})
  }

  /** These steps lead from one machine to the other. */
  ghost predicate Leads(m: Machine, es: seq<Event>, n: Machine) {
    if es == [] then n == m
    else
      var front, last := es[..|es| - 1], es[|es| - 1];
      exists k :: Leads(m, front, k) && Allowed(k, last) && n == After(k, last)
  }

  lemma {:induction false} LeadsOn(m: Machine, es: seq<Event>, n: Machine, fs: seq<Event>, p: Machine)
    requires Leads(m, es, n) && Leads(n, fs, p)
    ensures Leads(m, es + fs, p)
  {
    hide Allowed, After;
    if fs == [] {
      assert es + fs == es;
    } else {
      var k :| Leads(n, fs[..|fs| - 1], k) && Allowed(k, fs[|fs| - 1]) && p == After(k, fs[|fs| - 1]);
      LeadsOn(m, es, n, fs[..|fs| - 1], k);
      assert (es + fs)[..|es + fs| - 1] == es + fs[..|fs| - 1];
    }
  }

  /** What was added to a record of steps leads from one machine to the other. */
  ghost predicate Path(m: Machine, es: seq<Event>, fs: seq<Event>, n: Machine) {
    es <= fs && Leads(m, fs[|es|..], n)
  }

  lemma PathNone(m: Machine, es: seq<Event>)
    ensures Path(m, es, es, m)
  {
  }

  lemma PathWhole(m: Machine, es: seq<Event>, n: Machine)
    requires Path(m, [], es, n)
    ensures Leads(m, es, n)
  {
    assert es[0..] == es;
  }

  lemma PathNext(m: Machine, es: seq<Event>, fs: seq<Event>, n: Machine, e: Event)
    requires Path(m, es, fs, n) && Allowed(n, e)
    ensures Path(m, es, fs + [e], After(n, e))
  {
    hide Allowed, After;
    var gs := (fs + [e])[|es|..];
    assert gs[..|gs| - 1] == fs[|es|..];
  }

  lemma PathTrans(m: Machine, es: seq<Event>, fs: seq<Event>, n: Machine, gs: seq<Event>, p: Machine)
    requires Path(m, es, fs, n) && Path(n, fs, gs, p)
    ensures Path(m, es, gs, p)
  {
    hide Leads;
    LeadsOn(m, fs[|es|..], n, gs[|fs|..], p);
    assert fs[|es|..] + gs[|fs|..] == gs[|es|..];
  }

  const Initial := State(map[], map[], [], map[], map[], map[], {}, {}, map[], 0, {})

  lemma DidStep(m: Machine, a: Action)
    requires m.At(Code) && !m.returning && m.script != [] && m.script[0] == a && a != Return
    requires a.Wrap? ==> !CanDo(m.s, a)
    ensures var n := m.(script := m.script[1..]);
            && Allowed(m, Did(a, CanDo(m.s, a)))
            && After(m, Did(a, CanDo(m.s, a))) == if CanDo(m.s, a) then Acting(n, a) else n
  {
    hide Acting;
  }

  lemma ReturnStep(m: Machine)
    requires m.At(Code) && !m.returning && m.script != [] && m.script[0] == Return
    ensures Allowed(m, Did(Return, false))
    ensures After(m, Did(Return, false)) == m.(script := m.script[1..], returning := true)
  {
  }

  lemma LeftStep(m: Machine)
    requires m.At(Code) && (m.returning || m.script == [])
    ensures Allowed(m, Left) && After(m, Left) == m.(stack := m.Popped(), returning := false)
  {
  }

  /** Code outside returns. */
  lemma ReturnPath(m: Machine, es: seq<Event>, fs: seq<Event>, n: Machine)
    requires Path(m, es, fs, n) && n.At(Code) && !n.returning && n.script != [] && n.script[0] == Return
    ensures Path(m, es, fs + [Did(Return, false)] + [Left], n.(script := n.script[1..], stack := n.Popped()))
  {
    hide Path, Allowed, After;
    var e := Did(Return, false);
    ReturnStep(n);
    LeftStep(After(n, e));
    PathNext(m, es, fs, n, e);
    PathNext(m, es, fs + [e], After(n, e), Left);
  }

  lemma EnteredStep(m: Machine)
    requires m.stack == [] && !m.returning
    ensures Allowed(m, Entered) && After(m, Entered) == m.(stack := [Code])
  {
  }

  lemma TakenOutStep(m: Machine, w: Wrapper)
    requires m.At(Down(w)) && !m.returning && w in m.s.condemned && Accessible(m.s, w)
    ensures Allowed(m, TakenOut(w))
    ensures After(m, TakenOut(w))
         == Unlocking(m.(s := TornDown(m.s, w), stack := m.Popped() + [Out(w)]), m.s.obj[w].block)
  {
  }

  /** The lock of a wrapper that is taken out is there for the teardown to release. */
  lemma TornDownLock(s: State, w: Wrapper)
    requires Accessible(s, w) && s.clients[s.obj[w].block] >= 0
    ensures var t := TornDown(s, w); var b := s.obj[w].block;
            b in t.blocks && b in t.clients && t.clients[b] > 0 && w in t.limbo
  {
  }

  lemma UnlockingIs(m: Machine, b: nat)
    requires b in m.s.blocks && b in m.s.clients
    ensures var s := ClientLocked(m.s, b, -1);
            Unlocking(m, b) == if m.s.blocks[b].locks == 1
                               then m.(s := s.(dying := s.dying + {b}), stack := m.stack + [Dying(b), Code])
                               else m.(s := s)
  {
    hide ClientLocked;
  }

  lemma GoneOutcome(s: State, t: State, b: nat)
    requires Step(s, t) && Inv(Gone(t, b))
    ensures Outcome(s.(dying := s.dying - {b}), Gone(t, b), None)
  {
    hide Step, Inv;
    SameFramesDead(s, t, Gone(t, b), b);
  }

  lemma KeptOutcome(s: State, t: State, w: Wrapper)
    requires Step(s, t)
    ensures var u := if |t.cache| < MAX_WRAPPER_CACHE then Returned(t, w) else Deleted(t, w);
            Inv(u) ==> Outcome(s.(limbo := s.limbo - {w}), u, None)
  {
    hide Step, Inv;
    var u := if |t.cache| < MAX_WRAPPER_CACHE then Returned(t, w) else Deleted(t, w);
    if Inv(u) { SameFramesIn(s, t, u, w); }
  }

  lemma FlushOne(s: State)
    requires s.cache != []
    ensures var n := |s.cache| - 1; var w := s.cache[n];
            Flushed(s.(cache := s.cache[..n], refs := s.refs - {w}, obj := s.obj - {w})) == Flushed(s)
  {
    var n := |s.cache| - 1;
    assert s.cache == s.cache[..n] + [s.cache[n]];
    var w := s.cache[n];
    var all, rest := (set v | v in s.cache), (set v | v in s.cache[..n]);
    assert all == rest + {w};
    assert s.refs - {w} - rest == s.refs - all;
    assert s.obj - {w} - rest == s.obj - all;
  }

  lemma FlushNone(s: State)
    requires s.cache == []
    ensures Flushed(s) == s
  {
    assert (set w | w in s.cache) == {};
  }

  lemma StoppedStep(m: Machine, w: Wrapper)
    requires m.At(Down(w)) && !m.returning && w !in m.s.condemned
    ensures Allowed(m, Stopped(w))
    ensures After(m, Stopped(w)) == m.(s := if Accessible(m.s, w) then TornDown(m.s, w) else m.s)
  {
    hide TornDown;
  }

  lemma ReturningStep(m: Machine, w: Wrapper)
    requires m.At(Out(w)) && !m.returning
    ensures Allowed(m, Returning(w)) && After(m, Returning(w)) == m.(stack := m.Popped() + [Keeping(w), Code])
  {
  }

  lemma KeptStep(m: Machine, w: Wrapper)
    requires m.At(Keeping(w)) && !m.returning
    ensures Allowed(m, Kept(w))
    ensures After(m, Kept(w)) ==
            m.(s := if |m.s.cache| < MAX_WRAPPER_CACHE then Returned(m.s, w) else Deleted(m.s, w),
               stack := m.Popped())
  {
  }

  lemma FreedStep(m: Machine, b: nat)
    requires m.At(Dying(b)) && !m.returning
    ensures Allowed(m, Freed(b))
    ensures After(m, Freed(b)) == m.(s := Gone(m.s, b), stack := m.Popped())
  {
  }

  /** What Create did is a step of the machine. */
  lemma GivenStep(m: Machine, a: Addr, w: Wrapper, t: State)
    requires m.At(Code) && !m.returning && m.script != [] && m.script[0] == Wrap(a) && CanDo(m.s, Wrap(a))
    requires a in m.s.wrappers ==>
               && w == m.s.wrappers[a] && w in m.s.refs
               && t == if w in m.s.condemned then Rewrapped(m.s, w)
                       else m.s.(refs := m.s.refs[w := m.s.refs[w] + 1])
    requires a !in m.s.wrappers ==> Obtained(m.s, w, t.cache) && t == Wrapped(m.s, a, w, t.cache)
    ensures Allowed(m, Gave(a, w)) && After(m, Gave(a, w)) == m.(s := t, script := m.script[1..])
  {
    hide Pointing, Locked;
    if a !in m.s.wrappers && m.s.cache != [] {
      assert m.s.cache[..|m.s.cache| - 1] == t.cache;
    }
  }

  class Pool {
    var blocks: map<nat, Block>
    var wrappers: map<Addr, Wrapper>
    var cache: seq<Wrapper>
    var refs: map<Wrapper, int>
    var obj: map<Wrapper, Addr>
    var clients: map<nat, int>
    ghost var dying: set<nat>
    ghost var limbo: set<Wrapper>
    var condemned: map<Wrapper, nat>
    var frames: nat
    var handed: set<nat>
    var failed: Option<Wrapper>
    var script: seq<Action>
    ghost var steps: seq<Event>
    ghost var stack: seq<Frame>

    ghost function St(): State
      reads this
    {
      State(blocks, wrappers, cache, refs, obj, clients, dying, limbo, condemned, frames, handed)
    }

    ghost function Now(): Machine
      reads this
    {
      Machine(St(), script, stack, false)
    }

    /** The call has made the steps that lead from `m`, and unless it failed, `under` is what is under way. */
    ghost predicate Made(m: Machine, es: seq<Event>, under: seq<Frame>)
      reads this
    {
      && Path(m, es, steps, Now())
      && if failed.None? then stack == under else steps != [] && steps[|steps| - 1] == Stopped(failed.value)
    }

    ghost predicate Ready()
      reads this
    {
      Inv(St()) && failed.None?
    }

    /** What a call that began in state `s` with a script of `n` actions has done. */
    ghost predicate Done(s: State, n: nat)
      reads this
    {
      Outcome(s, St(), failed) && |script| <= n
    }

    constructor (script: seq<Action>)
      ensures Ready() && this.script == script
      ensures frames == 0 && dying == {} && limbo == {} && condemned == map[] && handed == {}
      ensures St() == Initial && steps == [] && stack == []
    {
      blocks, wrappers, cache, refs, obj, clients := map[], map[], [], map[], map[], map[];
      dying, limbo, condemned, frames, handed, failed := {}, {}, map[], 0, {}, None;
      this.script := script;
      steps, stack := [], [];
    }

    /** A wrapper from the end of the pool, or a new one. */
    method GetWrapper(a: Addr) returns (w: Wrapper)
      requires Inv(St())
      modifies `cache, `refs, `obj
      ensures Obtained(old(St()), w, cache)
      ensures refs == old(refs)[w := 1] && obj == old(obj)[w := a]
    {
      hide Inv;
      if |cache| > 0 {
        w := cache[|cache| - 1];
        cache := cache[..|cache| - 1];
      } else {
        ghost var n := Bound(refs.Keys);
        assert n !in refs.Keys;
        w :| w !in refs;
      }
      refs := refs[w := 1];
      obj := obj[w := a];
    }

    /** One more reference to a wrapper; the first one, if the wrapper is condemned. */
    method Hand(w: Wrapper)
      requires Ready() && w in refs && refs[w] > 0
      modifies `refs, `condemned, `handed
      ensures Ready()
      ensures St() == if w in old(condemned) then Rewrapped(old(St()), w)
                      else old(St()).(refs := old(refs)[w := old(refs[w]) + 1])
    {
      hide Inv;
      if w in condemned {
        RewrappedKeeps(St(), w);
        handed := handed + {condemned[w]};
        condemned := condemned - {w};
      } else {
        CountedKeeps(St(), w, 1);
        refs := refs[w := refs[w] + 1];
      }
    }

    /** A wrapper from the pool, or a new one, enters the index and locks the object. */
    method WrapNew(a: Addr) returns (w: Wrapper)
      requires Ready() && a.block in blocks && a.block !in dying && a !in wrappers
      modifies `blocks, `wrappers, `cache, `refs, `obj
      ensures Ready() && Obtained(old(St()), w, cache) && St() == Wrapped(old(St()), a, w, cache)
    {
      hide Inv, Obtained;
      ghost var s := St();
      w := GetWrapper(a);
      WrappedKeeps(s, a, w, cache);
      wrappers := wrappers[a := w];
      blocks := blocks[a.block := blocks[a.block].(locks := blocks[a.block].locks + 1)];
      if HasLockData(a) {
        blocks := blocks[a.block := blocks[a.block].(wrapper := Some(w))];
      }
      assert blocks == Locked(Pointing(s, a, Some(w)), a.block, 1);
    }

    /** The one wrapper of an object, with one more reference. */
    method Create(a: Addr) returns (w: Wrapper)
      requires Ready() && a.block in blocks && a.block !in dying
      modifies this
      ensures Ready() && a in wrappers && w == wrappers[a] && script == old(script)
      ensures steps == old(steps) && stack == old(stack)
      ensures a in old(wrappers) ==>
                && w == old(wrappers[a]) && w in old(refs)
                && St() == if w in old(condemned) then Rewrapped(old(St()), w)
                           else old(St()).(refs := old(refs)[w := old(refs[w]) + 1])
      ensures a !in old(wrappers) ==> Obtained(old(St()), w, cache) && St() == Wrapped(old(St()), a, w, cache)
    {
      hide Inv, Obtained;
      ghost var s := St();
      Pointers(s, a);
      if HasLockData(a) && blocks[a.block].wrapper.Some? {
        w := blocks[a.block].wrapper.value;
        Hand(w);
        return;
      }
      if a !in wrappers {
        w := WrapNew(a);
      } else {
        w := wrappers[a];
        assert !HasLockData(a);
        Hand(w);
      }
    }

    /** Drops a Python reference; the last one tears the wrapper down. */
    method DecRef(w: Wrapper)
      requires Ready() && w in refs && refs[w] > 0 && w !in condemned
      modifies this
      ensures Done(old(St()), old(|script|)) && Made(Dereferencing(old(Now()), w), old(steps), old(stack))
      ensures old(refs[w]) > 1 ==> St() == old(St()).(refs := old(refs)[w := old(refs[w]) - 1])
      decreases |script|, 4, 0
    {
      hide Inv, Step, Damaged, Path;
      PathNone(Dereferencing(Now(), w), steps);
      if refs[w] > 1 {
        ghost var s := St();
        CountedKeeps(s, w, -1);
        refs := refs[w := refs[w] - 1];
        SameFrames(s, St());
      } else {
        PyDestroy(w);
      }
    }

    /**
     Runs the destroy handler, then takes the wrapper out of the index, releases the object and returns
     the wrapper. The program does so whatever the handler did; after a handler that wrapped the object
     again the model stops in the middle.
     */
    method PyDestroy(w: Wrapper)
      requires Ready() && w in refs && refs[w] == 1 && w !in condemned
      modifies this
      ensures Done(old(St()), old(|script|)) && Made(Dereferencing(old(Now()), w), old(steps), old(stack))
      decreases |script|, 3
    {
      hide Inv, Step, Damaged, Path, Allowed, After, TornDown, Accessible;
      ghost var s, m := St(), Dereferencing(Now(), w);
      var frame := frames;
      NotReturning(s, w);
      RunHandler(w);
      if failed.Some? {
        FailedWithin(s, Condemned(s, w), St(), failed);
        return;
      }
      ghost var t, so, n := St(), steps, Now();
      TeardownExactly(s, w, t);
      if frame in handed {
        StoppedStep(n, w);
        PathNext(m, old(steps), steps, n, Stopped(w));
        StopAt(w);
        steps := steps + [Stopped(w)];
      } else {
        FinishTeardown(w, s);
        PathTrans(m, old(steps), so, n, steps, Now());
      }
    }

    /** The wrapper is condemned and its handler run. */
    method RunHandler(w: Wrapper)
      requires Ready() && w in refs && refs[w] == 1 && w !in condemned
      modifies this
      ensures Done(Condemned(old(St()), w), old(|script|))
      ensures Made(Dereferencing(old(Now()), w), old(steps), old(stack) + [Down(w)])
      decreases |script|, 1
    {
      hide Inv, Step, Damaged, Path;
      CondemnedKeeps(St(), w);
      condemned, frames := condemned[w := frames], frames + 1;
      stack := stack + [Down(w), Code];
      RunScript();
    }

    /** The second half of a teardown that began in state `s` and whose handler has not handed the wrapper out. */
    method FinishTeardown(w: Wrapper, ghost s: State)
      requires Ready() && w in condemned && Now().At(Down(w))
      requires Inv(s) && w !in s.condemned && w !in s.limbo && Step(Condemned(s, w), St())
      requires Accessible(St(), w) && Inv(TornDown(St(), w)) && blocks[obj[w].block].locks > 0
      requires clients[obj[w].block] >= 0 && obj[w].block !in dying
      modifies this
      ensures Done(s, old(|script|)) && Made(old(Now()), old(steps), old(Now()).Popped())
      decreases |script|, 2, 1
    {
      hide Inv, Step, Damaged, Path, Allowed, After, TornDown, Outcome;
      ghost var t, m := St(), Now();
      PathNone(m, steps);
      TakenOutStep(m, w);
      PathNext(m, steps, steps, m, TakenOut(w));
      var a := obj[w];
      TornDownLock(t, w);
      TakeDown(w);
      ghost var out, so, n := St(), steps, Unlocking(Now(), a.block);
      Unlock(a.block);
      OutcomeIs(out, St(), failed);
      PathTrans(m, old(steps), so, n, steps, Now());
      if failed.Some? {
        LaterFailed(s, w, t, out, St(), failed);
        return;
      }
      ghost var released, sr, r := St(), steps, Now();
      StillReturning(out, released, w);
      ReturnWrapper(w);
      PathTrans(m, old(steps), sr, r, steps, Now());
      TeardownOutcome(s, w, t, out, released, St(), failed);
    }

    /** The second half of the teardown of a wrapper that its handler has handed out. */
    method StopAt(w: Wrapper)
      requires Ready() && w !in limbo && w !in condemned
      modifies `blocks, `wrappers, `refs, `clients, `limbo, `condemned, `failed
      ensures failed == Some(w) && Damaged(St(), w) && handed == old(handed)
      ensures St() == if old(Accessible(St(), w)) then TornDown(old(St()), w) else old(St())
    {
      hide Inv, TornDown;
      if w in refs && w in obj && obj[w].block in blocks && obj[w].block in clients {
        TornDownExactly(St(), w);
        TakeOut(w);
      }
      failed := Some(w);
    }

    method TakeDown(w: Wrapper)
      requires Accessible(St(), w) && Now().At(Down(w))
      modifies `blocks, `wrappers, `refs, `clients, `limbo, `condemned, `steps, `stack
      ensures Now() == old(Now()).(s := TornDown(old(St()), w), stack := old(Now()).Popped() + [Out(w)])
      ensures steps == old(steps) + [TakenOut(w)]
    {
      hide TornDown;
      TakeOut(w);
      steps, stack := steps + [TakenOut(w)], stack[..|stack| - 1] + [Out(w)];
    }

    /** Clears the lock data's pointer and the index; the wrapper's lock is the caller's to release. */
    method TakeOut(w: Wrapper)
      requires Accessible(St(), w)
      modifies `blocks, `wrappers, `refs, `clients, `limbo, `condemned
      ensures St() == TornDown(old(St()), w)
    {
      var a := obj[w];
      if HasLockData(a) {
        blocks := blocks[a.block := blocks[a.block].(wrapper := None)];
      }
      wrappers := wrappers - {a};
      if w in condemned {
        refs := refs[w := 0];
        condemned := condemned - {w};
      }
      clients := clients[a.block := clients[a.block] + 1];
      limbo := limbo + {w};
    }

    /** Weak reference callbacks run before the pool is looked at. */
    method ReturnWrapper(w: Wrapper)
      requires Ready() && w in limbo && Now().At(Out(w))
      modifies this
      ensures Done(old(St()).(limbo := old(limbo) - {w}), old(|script|))
      ensures Made(old(Now()), old(steps), old(Now()).Popped())
      decreases |script|, 2, 0
    {
      hide Inv, Step, Damaged, Path, Returned, Deleted, Outcome;
      ghost var s := St();
      Unprepare(w);
      OutcomeIs(s, St(), failed);
      if failed.Some? {
        FailedWithin(s.(limbo := s.limbo - {w}), s, St(), failed);
        return;
      }
      ghost var t, n := St(), Now();
      StillReturning(s, t, w);
      KeptStep(n, w);
      PathNext(old(Now()), old(steps), steps, n, Kept(w));
      Keep(w);
      steps, stack := steps + [Kept(w)], stack[..|stack| - 1];
      KeptOutcome(s, t, w);
    }

    /** The callbacks run. */
    method Unprepare(w: Wrapper)
      requires Ready() && Now().At(Out(w))
      modifies this
      ensures Done(old(St()), old(|script|)) && Made(old(Now()), old(steps), old(Now()).Popped() + [Keeping(w)])
      decreases |script|, 1
    {
      hide Inv, Step, Damaged, Path, Allowed, After;
      ghost var m := Now();
      PathNone(m, steps);
      ReturningStep(m, w);
      PathNext(m, steps, steps, m, Returning(w));
      steps, stack := steps + [Returning(w)], stack[..|stack| - 1] + [Keeping(w), Code];
      ghost var so, n := steps, Now();
      RunScript();
      PathTrans(m, old(steps), so, n, steps, Now());
    }

    /** Into the pool while there is room, else deleted. */
    method Keep(w: Wrapper)
      requires Ready() && w in limbo
      modifies `cache, `refs, `obj, `limbo
      ensures Ready()
      ensures St() == if |old(cache)| < MAX_WRAPPER_CACHE then Returned(old(St()), w) else Deleted(old(St()), w)
    {
      hide Inv;
      LimboKnown(St(), w);
      if |cache| < MAX_WRAPPER_CACHE {
        ReturnedKeeps(St(), w);
        cache := cache + [w];
      } else {
        DeletedKeeps(St(), w);
        refs := refs - {w};
        obj := obj - {w};
      }
      limbo := limbo - {w};
    }

    method Unlock(b: nat)
      requires Ready() && b in blocks && b in clients && clients[b] > 0
      modifies this
      ensures Done(old(St()), old(|script|)) && Made(Unlocking(old(Now()), b), old(steps), old(stack))
      ensures old(blocks[b].locks) > 1 ==> St() == ClientLocked(old(St()), b, -1) && script == old(script)
      decreases |script|, 2, 0
    {
      hide Inv, Step, Damaged, Path, Unlocking;
      ghost var s := St();
      UnlockingIs(Now(), b);
      PathNone(Unlocking(Now(), b), steps);
      Release(b);
      if blocks[b].locks == 0 {
        ghost var t := St();
        Destroy(b, old(stack));
        SameFramesBut(s, t, b);
        OutcomeTrans(s, t.(dying := t.dying - {b}), St(), failed);
      } else {
        SameFrames(s, St());
      }
    }

    /** One lock less; an object without locks is about to be destroyed. */
    method Release(b: nat)
      requires Ready() && b in blocks && b in clients && clients[b] > 0
      modifies `blocks, `clients, `dying, `stack
      ensures Ready() && Now() == Unlocking(old(Now()), b) && b in blocks
      ensures blocks[b].locks == 0 ==> stack == old(stack) + [Dying(b), Code]
      ensures blocks[b].locks == old(blocks[b].locks) - 1 && old(blocks[b].locks) > 0 && b !in old(dying)
      ensures St() == if blocks[b].locks == 0 then ClientLocked(old(St()), b, -1).(dying := old(dying) + {b})
                      else ClientLocked(old(St()), b, -1)
    {
      hide Inv;
      ghost var s := St();
      Known(s, b);
      if blocks[b].locks == 1 {
        StartDying(s, b);
        dying := dying + {b};
        stack := stack + [Dying(b), Code];
      } else {
        ClientLockedKeeps(s, b, -1);
      }
      blocks := blocks[b := blocks[b].(locks := blocks[b].locks - 1)];
      clients := clients[b := clients[b] - 1];
    }

    /** Runs the destructor and frees the memory. */
    method Destroy(b: nat, ghost under: seq<Frame>)
      requires Ready() && b in dying && stack == under + [Dying(b), Code]
      modifies this
      ensures Done(old(St()).(dying := old(dying) - {b}), old(|script|))
      ensures Made(old(Now()), old(steps), under)
      decreases |script|, 1
    {
      hide Inv, Step, Damaged, Path, Outcome;
      ghost var s, m := St(), Now();
      assert stack[..|stack| - 1] == under + [Dying(b)];
      RunScript();
      OutcomeIs(s, St(), failed);
      if failed.Some? {
        FailedWithin(s.(dying := s.dying - {b}), s, St(), failed);
      } else {
        StillDying(s, St(), b);
        ghost var n, so := Now(), steps;
        FreeDead(b, s, under);
        PathTrans(m, old(steps), so, n, steps, Now());
      }
    }

    /** Frees an object whose destruction began in state `s`. */
    method FreeDead(b: nat, ghost s: State, ghost under: seq<Frame>)
      requires Ready() && b in dying && stack == under + [Dying(b)] && Step(s, St())
      modifies `blocks, `clients, `dying, `steps, `stack
      ensures Outcome(s.(dying := s.dying - {b}), St(), failed) && Path(old(Now()), old(steps), steps, Now())
      ensures stack == under
    {
      hide Inv, Step, Damaged, Path, Allowed, After, Gone;
      ghost var t, n := St(), Now();
      FreedStep(n, b);
      assert n.Popped() == under;
      PathNone(n, steps);
      PathNext(n, steps, steps, n, Freed(b));
      Free(b);
      steps, stack := steps + [Freed(b)], under;
      GoneOutcome(s, t, b);
    }

    /** The memory goes. An object that still had a wrapper would be an error. */
    method Free(b: nat)
      requires Ready() && b in dying
      modifies `blocks, `clients, `dying
      ensures Ready() && St() == Gone(old(St()), b)
    {
      hide Inv;
      DyingKnown(St(), b);
      DyingUnwrapped(St(), Addr(b, 0));
      if blocks[b].wrapper.Some? {
        assert false;
      }
      FreedKeeps(St(), b);
      blocks := blocks - {b};
      clients := clients - {b};
      dying := dying - {b};
    }

    method FlushWrappers()
      requires Ready()
      modifies `cache, `refs, `obj
      ensures Ready() && St() == Flushed(old(St()))
    {
      hide Inv;
      hide Flushed;
      while |cache| > 0
        invariant Ready() && Flushed(St()) == Flushed(old(St()))
      {
        FlushedKeeps(St());
        FlushOne(St());
        var w := cache[|cache| - 1];
        refs := refs - {w};
        obj := obj - {w};
        cache := cache[..|cache| - 1];
      }
      FlushNone(St());
    }

    /** Any code outside: a finite sequence of actions, each of which may nest. */
    method RunScript()
      requires Ready() && Now().At(Code)
      modifies this
      ensures Done(old(St()), old(|script|)) && Made(old(Now()), old(steps), old(Now()).Popped())
      ensures old(script) != [] ==> |script| < old(|script|)
      decreases |script|, 0
    {
      hide Inv, Step, Damaged, Path, Allowed, After, Outcome;
      ghost var s, m := St(), Now();
      OutcomeSame(s);
      PathNone(m, steps);
      while script != [] && failed.None?
        invariant Done(s, old(|script|)) && Made(m, old(steps), old(stack))
        invariant |script| < old(|script|) || failed.None?
        decreases |script|
      {
        ghost var t, so, n := St(), steps, Now();
        OutcomeIs(s, t, None);
        var action := script[0];
        script := script[1..];
        if action == Return {
          ReturnPath(m, old(steps), steps, n);
          steps, stack := steps + [Did(Return, false)] + [Left], stack[..|stack| - 1];
          return;
        }
        Perform(action);
        OutcomeIs(t, St(), failed);
        assert n == n.(script := [action] + n.script[1..]);
        PathTrans(m, old(steps), so, n, steps, Now());
        OutcomeTrans(s, t, St(), failed);
      }
      if failed.None? {
        LeftStep(Now());
        PathNext(m, old(steps), steps, Now(), Left);
        steps, stack := steps + [Left], stack[..|stack| - 1];
      }
    }

    method PerformWrap(a: Addr)
      requires Ready() && a.block in blocks && blocks[a.block].locks > 0 && Now().At(Code)
      modifies this
      ensures Done(old(St()), old(|script|)) && script == old(script)
      ensures Made(old(Now()).(script := [Wrap(a)] + old(script)), old(steps), old(stack))
    {
      hide Inv, Step, Damaged, Obtained, Pointing, Path, Allowed, After, Giving;
      ghost var s, m := St(), Now().(script := [Wrap(a)] + script);
      Known(s, a.block);
      var w := Create(a);
      GivenStep(m, a, w, St());
      PathNone(m, steps);
      PathNext(m, steps, steps, m, Gave(a, w));
      steps := steps + [Gave(a, w)];
      if w in s.condemned && a in s.wrappers {
        RewrappedStep(s, w);
      } else {
        SameFrames(s, St());
      }
    }

    /** Actions that run no other code. */
    method PerformPlain(action: Action)
      requires Ready() && (action.Allocate? || action.TakeLock? || action.IncRef? || action.Flush?)
      requires Now().At(Code)
      modifies `blocks, `clients, `refs, `cache, `obj
      ensures Ready() && Now() == if CanDo(old(St()), action) then Acting(old(Now()), action) else old(Now())
    {
      hide Inv;
      match action {
        case Allocate(b) =>
          if b !in blocks {
            AllocatedKeeps(St(), b);
            blocks := blocks[b := Block(1, None)];
            clients := clients[b := 1];
          }
        case TakeLock(b) =>
          if b in blocks && b in clients && blocks[b].locks > 0 {
            Known(St(), b);
            ClientLockedKeeps(St(), b, 1);
            blocks := blocks[b := blocks[b].(locks := blocks[b].locks + 1)];
            clients := clients[b := clients[b] + 1];
          }
        case IncRef(w) =>
          if w in refs && refs[w] > 0 && w !in condemned {
            CountedKeeps(St(), w, 1);
            refs := refs[w := refs[w] + 1];
          }
        case Flush => FlushWrappers();
      }
    }

    method Perform(action: Action)
      requires Ready() && Now().At(Code) && action != Return
      modifies this
      ensures Done(old(St()), old(|script|))
      ensures Made(old(Now()).(script := [action] + old(script)), old(steps), old(stack))
      decreases |script|, 5
    {
      hide Inv, Step, Damaged, Path, Allowed, After, Acting;
      ghost var s, m := St(), Now().(script := [action] + script);
      StepSame(s);
      PathNone(m, steps);
      if action.Wrap? && action.a.block in blocks && blocks[action.a.block].locks > 0 {
        PerformWrap(action.a);
      } else {
        ghost var e := Did(action, CanDo(s, action));
        DidStep(m, action);
        PathNext(m, steps, steps, m, e);
        steps := steps + [e];
        if !action.Wrap? {
          PerformOther(action);
          ghost var n := if e.ok then Acting(old(Now()), action) else old(Now());
          PathTrans(m, old(steps), old(steps) + [e], n, steps, Now());
        }
      }
    }

    /** Actions other than a wrapping. */
    method PerformOther(action: Action)
      requires Ready() && Now().At(Code) && action != Return && !action.Wrap?
      modifies this
      ensures Done(old(St()), old(|script|))
      ensures Made(if CanDo(old(St()), action) then Acting(old(Now()), action) else old(Now()), old(steps), old(stack))
      decreases |script|, 4, 1
    {
      hide Inv, Step, Damaged, Path, Unlocking, Dereferencing;
      ghost var s := St();
      StepSame(s);
      PathNone(if CanDo(s, action) then Acting(Now(), action) else Now(), steps);
      if action.DropLock? {
        if action.b in blocks && action.b in clients && clients[action.b] > 0 {
          Unlock(action.b);
        }
      } else if action.DecRef? {
        if action.w in refs && refs[action.w] > 0 && action.w !in condemned {
          DecRef(action.w);
        }
      } else {
        PerformPlain(action);
        SameFrames(s, St());
      }
    }
  }

  /**
   A run goes to its end exactly when no destroy handler wraps the object it is run for. Then an object
   has at most one live wrapper, the index and the lock data find exactly that one, every live wrapper
   holds one lock, and the pool is bounded and apart. Otherwise the first teardown whose handler
   did so has touched freed memory or broken the invariant.
   */
  method Run(script: seq<Action>)
    returns (blocks: map<nat, Block>, clients: map<nat, int>, wrappers: map<Addr, Wrapper>, cache: seq<Wrapper>,
             refs: map<Wrapper, int>, obj: map<Wrapper, Addr>, handed: set<nat>, failed: Option<Wrapper>,
             ghost end: State, ghost rest: seq<Action>, ghost stack: seq<Frame>, ghost steps: seq<Event>)
    ensures Leads(Machine(Initial, script, [], false), steps, Machine(end, rest, stack, false))
    ensures failed.None? ==> rest == [] && stack == []
    ensures failed.Some? ==> steps != [] && steps[|steps| - 1] == Stopped(failed.value)
    ensures failed.None? <==> handed == {}
    ensures failed.None? ==> Sound(blocks, clients, wrappers, cache, refs, obj)
    ensures failed.Some? ==> Damaged(end, failed.value)
    ensures end.blocks == blocks && end.clients == clients && end.wrappers == wrappers && end.cache == cache
    ensures end.refs == refs && end.obj == obj
  {
    hide Inv, Step, Damaged, Path, Allowed, After;
    var pool := new Pool(script);
    ghost var start, m := pool.St(), pool.Now();
    StepSame(start);
    PathNone(m, []);
    while pool.script != [] && pool.failed.None?
      invariant fresh(pool) && Outcome(start, pool.St(), pool.failed) && pool.Made(m, [], [])
      decreases |pool.script|
    {
      ghost var t, n := pool.St(), pool.Now();
      EnteredStep(n);
      PathNext(m, [], pool.steps, n, Entered);
      pool.steps, pool.stack := pool.steps + [Entered], [Code];
      ghost var so, k := pool.steps, pool.Now();
      pool.RunScript();
      PathTrans(m, [], so, k, pool.steps, pool.Now());
      OutcomeTrans(start, t, pool.St(), pool.failed);
    }
    rest, stack, steps := pool.script, pool.stack, pool.steps;
    PathWhole(m, steps, pool.Now());
    blocks, clients, wrappers, cache, refs, obj := pool.blocks, pool.clients, pool.wrappers, pool.cache, pool.refs,
        pool.obj;
    handed, failed, end := pool.handed, pool.failed, pool.St();
    if failed.None? {
      RunEnds(start, end);
      RunFacts(end);
    }
  }

  lemma RunEnds(start: State, end: State)
    requires Step(start, end) && start.condemned == map[] && start.handed == {} && start.limbo == {}
    ensures end.handed == {} && end.limbo == {}
  {
    assert forall f | f in end.handed :: false;
  }

  /** Index, lock data, lock counts and pool agree when no call is under way. */
  ghost predicate Sound(blocks: map<nat, Block>, clients: map<nat, int>, wrappers: map<Addr, Wrapper>,
                        cache: seq<Wrapper>, refs: map<Wrapper, int>, obj: map<Wrapper, Addr>)
  {
    && |cache| <= MAX_WRAPPER_CACHE && NoDup(cache) && refs.Keys == obj.Keys
    && (forall w | w in refs && refs[w] == 0 :: w in cache)
    && (forall w | w in refs && refs[w] != 0 ::
          refs[w] > 0 && w !in cache && obj[w] in wrappers && wrappers[obj[w]] == w)
    && (forall a | a in wrappers :: a.block in blocks && blocks[a.block].locks > 0 && wrappers[a] in refs
                                    && (HasLockData(a) ==> blocks[a.block].wrapper == Some(wrappers[a])))
    && (forall b | b in blocks :: b in clients && blocks[b].locks == clients[b] + |WrappedIn(wrappers, b)|)
  }

  lemma RunFacts(s: State)
    requires Inv(s) && s.limbo == {}
    ensures Sound(s.blocks, s.clients, s.wrappers, s.cache, s.refs, s.obj)
  {
    forall a | a in s.wrappers
      ensures a.block in s.blocks && s.blocks[a.block].locks > 0 && s.wrappers[a] in s.refs
              && (HasLockData(a) ==> s.blocks[a.block].wrapper == Some(s.wrappers[a]))
    {
      WrappedLives(s, a);
      Pointers(s, a);
    }
  }
}

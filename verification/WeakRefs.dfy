/**
 Reference counting with weak references: unlock, notification, resurrection, destruction.

 Callbacks and clients are an adversary that consumes a finite script of actions; an action that
 no correct client could take (releasing a reference it does not own, using a dead object) does
 nothing. The length of the script is the budget that bounds re-registration.
 */
module WeakRefs {

  import opened Basics

  type Obj = nat

  /** A registered reference: a BlueWeakRefBase, or some other IWeakRef whose notification runs code. */
  datatype WeakRef = Base(id: nat) | Listener(id: nat)

  datatype Action =
    | TakeLock(o: Obj)
    | DropLock(o: Obj)
    | AssignWeak(w: nat, target: Option<Obj>)
    | Register(l: nat, o: Obj)
    | Unregister(l: nat, o: Obj)
    | Return

  datatype State = State(
    locks: map<Obj, int>,
    refs: map<Obj, seq<WeakRef>>,
    holds: map<nat, Obj>,
    log: seq<Obj>,
    owned: map<Obj, int>,
    notifying: set<Obj>)

  predicate HeldAt(holds: map<nat, Obj>, w: nat, o: Obj) {
    w in holds && holds[w] == o
  }

  function Count(s: seq<WeakRef>, r: WeakRef): nat { multiset(s)[r] }

  // ---------- invariant ----------

  ghost predicate Domains(s: State) {
    s.refs.Keys == s.locks.Keys && s.owned.Keys == s.locks.Keys && s.notifying <= s.locks.Keys
  }

  /** Every lock is owned by a client, or is the temporary one of a notification under way. */
  ghost predicate LocksOwned(s: State)
    requires Domains(s)
  {
    forall o | o in s.locks :: s.owned[o] >= 0 && s.locks[o] == s.owned[o] + (if o in s.notifying then 1 else 0)
  }

  /** A weak reference holds an object exactly when it is registered there, and then once. */
  ghost predicate HoldsRegistered(s: State)
    requires Domains(s)
  {
    forall w, o | o in s.refs :: Count(s.refs[o], Base(w)) == if HeldAt(s.holds, w, o) then 1 else 0
  }

  ghost predicate HoldsKnown(s: State) {
    forall w | w in s.holds :: s.holds[w] in s.refs
  }

  /** Objects without locks are those destroyed, each destroyed once; only live objects have weak references. */
  ghost predicate LogOk(s: State, except: Option<Obj>)
    requires Domains(s)
  {
    && NoDup(s.log)
    && (forall o | o in s.log :: o in s.locks)
    && (forall o | o in s.locks && except != Some(o) :: s.locks[o] == 0 <==> o in s.log)
    && (forall o | o in s.locks && except != Some(o) && s.locks[o] == 0 :: s.refs[o] == [])
  }

  /** `except` is the object whose last lock has just gone and that is not destroyed yet. */
  ghost predicate InvExcept(s: State, except: Option<Obj>) {
    && Domains(s) && LocksOwned(s) && HoldsRegistered(s) && HoldsKnown(s) && LogOk(s, except)
    && (except.Some? ==> except.value in s.locks && except.value !in s.log)
  }

  ghost predicate Inv(s: State) {
    InvExcept(s, None)
  }

  /** No weak reference ever holds a destroyed object. */
  lemma NoDangling(s: State, w: nat)
    requires Inv(s) && w in s.holds
    ensures s.holds[w] in s.locks && s.holds[w] in s.refs && s.holds[w] in s.owned && s.owned[s.holds[w]] >= 0
    ensures s.holds[w] !in s.log && s.locks[s.holds[w]] > 0
  {
    var o := s.holds[w];
    assert Count(s.refs[o], Base(w)) == 1;
    assert s.refs[o] != [];
  }

  // ---------- elementary changes ----------

  function Counted(s: State, o: Obj, n: int): State
    requires o in s.locks && o in s.owned
  {
    s.(locks := s.locks[o := s.locks[o] + n], owned := s.owned[o := s.owned[o] + n])
  }

  function TempLocked(s: State, o: Obj): State
    requires o in s.locks
  {
    s.(locks := s.locks[o := s.locks[o] + 1], notifying := s.notifying + {o})
  }

  function TempUnlocked(s: State, o: Obj): State
    requires o in s.locks
  {
    s.(locks := s.locks[o := s.locks[o] - 1], notifying := s.notifying - {o})
  }

  function Erased(rs: seq<WeakRef>, r: WeakRef): seq<WeakRef> {
    if rs == [] then [] else if rs[0] == r then rs[1..] else [rs[0]] + Erased(rs[1..], r)
  }

  lemma {:induction false} ErasedCount(rs: seq<WeakRef>, r: WeakRef, q: WeakRef)
    ensures Count(Erased(rs, r), q) == if q == r && r in rs then Count(rs, q) - 1 else Count(rs, q)
  {
    if rs != [] {
      hide Count;
      assert rs == [rs[0]] + rs[1..];
      CountFirst(rs[0], rs[1..], q);
      if rs[0] != r {
        ErasedCount(rs[1..], r, q);
        CountFirst(rs[0], Erased(rs[1..], r), q);
      }
    }
  }

  lemma CountFirst(r: WeakRef, rs: seq<WeakRef>, q: WeakRef)
    ensures Count([r] + rs, q) == (if r == q then 1 else 0) + Count(rs, q)
  {
  }

  lemma {:induction false} ErasedAt(rs: seq<WeakRef>, i: nat, r: WeakRef)
    requires i < |rs| && rs[i] == r && r !in rs[..i]
    ensures Erased(rs, r) == rs[..i] + rs[i + 1..]
  {
    if i > 0 {
      assert rs[..i] == [rs[0]] + rs[1..][..i - 1];
      assert rs[1..][i - 1] == r;
      ErasedAt(rs[1..], i - 1, r);
      assert rs[1..][i - 1 + 1..] == rs[i + 1..];
    }
  }

  lemma {:induction false} ErasedAbsent(rs: seq<WeakRef>, r: WeakRef)
    requires r !in rs
    ensures Erased(rs, r) == rs
  {
    if rs != [] {
      ErasedAbsent(rs[1..], r);
      assert rs == [rs[0]] + rs[1..];
    }
  }

  lemma CountLast(rs: seq<WeakRef>, r: WeakRef, q: WeakRef)
    ensures Count(rs + [r], q) == Count(rs, q) + if q == r then 1 else 0
  {
  }

  lemma InCount(rs: seq<WeakRef>, q: WeakRef)
    ensures Count(rs, q) > 0 <==> q in rs
  {
  }

  function Unregistered(s: State, o: Obj, r: WeakRef): State
    requires o in s.refs
  {
    s.(refs := s.refs[o := Erased(s.refs[o], r)])
  }

  function Registered(s: State, o: Obj, r: WeakRef): State
    requires o in s.refs
  {
    s.(refs := s.refs[o := s.refs[o] + [r]])
  }

  /** What an assignment of a weak reference does to the state, and all it does. */
  function Assigned(s: State, w: nat, target: Option<Obj>): State
    requires w in s.holds ==> s.holds[w] in s.refs
    requires target.Some? ==> target.value in s.refs
  {
    var t := if w in s.holds then Unregistered(s, s.holds[w], Base(w)).(holds := s.holds - {w}) else s;
    if target.None? then t else Registered(t, target.value, Base(w)).(holds := t.holds[w := target.value])
  }

  /** The last registration is taken off; a weak reference forgets what it held. */
  function Popped(s: State, o: Obj): State
    requires o in s.refs && s.refs[o] != []
  {
    var n := |s.refs[o]| - 1;
    var r := s.refs[o][n];
    s.(refs := s.refs[o := s.refs[o][..n]], holds := if r.Base? then s.holds - {r.id} else s.holds)
  }

  // ---------- each change keeps the invariant ----------

  lemma CountedKeeps(s: State, o: Obj, n: int)
    requires Inv(s) && o in s.locks && s.locks[o] > 0 && s.owned[o] + n >= 0 && s.locks[o] + n > 0
    ensures Inv(Counted(s, o, n))
  {
  }

  /** Dropping the last lock leaves an object to be notified or destroyed. */
  lemma LastDropped(s: State, o: Obj)
    requires Inv(s) && o in s.locks && s.owned[o] > 0 && s.locks[o] == 1
    ensures InvExcept(Counted(s, o, -1), Some(o))
  {
  }

  lemma AboutToGo(s: State, t: State, o: Obj)
    requires Inv(s) && o in s.locks && s.locks[o] == 1 && s.owned[o] > 0 && t.notifying == s.notifying
    ensures o !in t.notifying
  {
  }

  lemma TempLockedKeeps(s: State, o: Obj)
    requires InvExcept(s, Some(o)) && s.locks[o] == 0 && o !in s.notifying
    ensures Inv(TempLocked(s, o))
  {
  }

  lemma TempUnlockedKeeps(s: State, o: Obj)
    requires Inv(s) && o in s.locks && s.refs[o] == [] && o in s.notifying
    ensures s.locks[o] > 1 ==> Inv(TempUnlocked(s, o))
    ensures s.locks[o] == 1 ==> InvExcept(TempUnlocked(s, o), Some(o))
    ensures s.locks[o] >= 1
  {
  }

  /** Only the registrations of `o` changed, to `rs`, and what weak references hold, to `holds`. */
  function Rewired(s: State, o: Obj, rs: seq<WeakRef>, holds: map<nat, Obj>): State
    requires o in s.refs
  {
    s.(refs := s.refs[o := rs], holds := holds)
  }

  /** Rewiring a live object keeps the invariant when the counts at that object follow `holds`. */
  lemma RewiredKeeps(s: State, o: Obj, rs: seq<WeakRef>, holds: map<nat, Obj>)
    requires Inv(s) && o in s.locks && s.locks[o] > 0
    requires forall w :: Count(rs, Base(w)) == if HeldAt(holds, w, o) then 1 else 0
    requires forall w, p | p != o :: HeldAt(holds, w, p) <==> HeldAt(s.holds, w, p)
    ensures Inv(Rewired(s, o, rs, holds))
  {
    hide Count, NoDup;
    var t := Rewired(s, o, rs, holds);
    assert HoldsRegistered(t) by {
      forall w, p | p in t.refs
        ensures Count(t.refs[p], Base(w)) == if HeldAt(t.holds, w, p) then 1 else 0
      {
        assert p != o ==> t.refs[p] == s.refs[p];
      }
    }
    assert HoldsKnown(t) by {
      forall w | w in holds ensures holds[w] in t.refs {
        if holds[w] != o { assert HeldAt(holds, w, holds[w]); }
      }
    }
  }

  lemma CountAt(s: State, o: Obj, w: nat)
    requires Inv(s) && o in s.refs
    ensures Count(s.refs[o], Base(w)) == if HeldAt(s.holds, w, o) then 1 else 0
  {
  }

  lemma PoppedKeeps(s: State, o: Obj)
    requires Inv(s) && o in s.locks && o in s.refs && s.refs[o] != [] && s.locks[o] > 0
    ensures Inv(Popped(s, o))
  {
    hide Inv;
    var n := |s.refs[o]| - 1;
    var r := s.refs[o][n];
    var t := Popped(s, o);
    assert s.refs[o] == s.refs[o][..n] + [r];
    forall w
      ensures Count(t.refs[o], Base(w)) == if HeldAt(t.holds, w, o) then 1 else 0
      ensures r == Base(w) ==> HeldAt(s.holds, w, o)
    {
      CountLast(s.refs[o][..n], r, Base(w));
      CountAt(s, o, w);
    }
    RewiredKeeps(s, o, t.refs[o], t.holds);
  }

  lemma AssignedKeeps(s: State, w: nat, target: Option<Obj>)
    requires Inv(s) && (target.Some? ==> target.value in s.locks && target.value in s.refs && s.locks[target.value] > 0)
    ensures w in s.holds ==> s.holds[w] in s.refs
    ensures Inv(Assigned(s, w, target))
  {
    hide Inv;
    if w in s.holds { UnassignedKeeps(s, w); }
    var t := if w in s.holds then Unregistered(s, s.holds[w], Base(w)).(holds := s.holds - {w}) else s;
    if target.Some? { NewlyAssignedKeeps(t, w, target.value); }
  }

  lemma UnassignedKeeps(s: State, w: nat)
    requires Inv(s) && w in s.holds
    ensures s.holds[w] in s.refs && Inv(Unregistered(s, s.holds[w], Base(w)).(holds := s.holds - {w}))
  {
    NoDangling(s, w);
    hide Inv;
    var o := s.holds[w];
    var t := Unregistered(s, o, Base(w)).(holds := s.holds - {w});
    forall v
      ensures Count(t.refs[o], Base(v)) == if HeldAt(t.holds, v, o) then 1 else 0
    {
      ErasedCount(s.refs[o], Base(w), Base(v));
      InCount(s.refs[o], Base(v));
      CountAt(s, o, v);
    }
    RewiredKeeps(s, o, t.refs[o], t.holds);
  }

  lemma NewlyAssignedKeeps(s: State, w: nat, o: Obj)
    requires Inv(s) && w !in s.holds && o in s.locks && o in s.refs && s.locks[o] > 0
    ensures Inv(Registered(s, o, Base(w)).(holds := s.holds[w := o]))
  {
    hide Inv;
    var t := Registered(s, o, Base(w)).(holds := s.holds[w := o]);
    forall v
      ensures Count(t.refs[o], Base(v)) == if HeldAt(t.holds, v, o) then 1 else 0
    {
      CountLast(s.refs[o], Base(w), Base(v));
      CountAt(s, o, v);
    }
    RewiredKeeps(s, o, t.refs[o], t.holds);
  }

  lemma ListenerKeeps(s: State, o: Obj, l: nat)
    requires Inv(s) && o in s.locks && o in s.refs && s.locks[o] > 0
    ensures Inv(Registered(s, o, Listener(l))) && Inv(Unregistered(s, o, Listener(l)))
  {
    hide Inv;
    forall v
      ensures Count(s.refs[o] + [Listener(l)], Base(v)) == if HeldAt(s.holds, v, o) then 1 else 0
      ensures Count(Erased(s.refs[o], Listener(l)), Base(v)) == if HeldAt(s.holds, v, o) then 1 else 0
    {
      CountLast(s.refs[o], Listener(l), Base(v));
      ErasedCount(s.refs[o], Listener(l), Base(v));
      CountAt(s, o, v);
    }
    RewiredKeeps(s, o, s.refs[o] + [Listener(l)], s.holds);
    RewiredKeeps(s, o, Erased(s.refs[o], Listener(l)), s.holds);
  }

  lemma DestroyedKeeps(s: State, o: Obj)
    requires InvExcept(s, Some(o)) && s.locks[o] == 0 && s.refs[o] == []
    ensures Inv(s.(log := s.log + [o]))
  {
  }

  /** What no run takes back: known objects stay known, destructions stay, notifications are balanced. */
  ghost predicate Step(s: State, t: State) {
    s.locks.Keys == t.locks.Keys && s.log <= t.log && s.notifying == t.notifying
  }

  lemma StepTrans(s: State, t: State, u: State)
    requires Step(s, t) && Step(t, u)
    ensures Step(s, u)
  {
  }

  lemma StepFacts(s: State, t: State, o: Obj)
    requires Step(s, t)
    ensures o in t.notifying <==> o in s.notifying
    ensures o in t.locks <==> o in s.locks
  {
    assert o in t.locks.Keys <==> o in s.locks.Keys;
  }

  lemma StepSelf(s: State)
    ensures Step(s, s)
  {
  }

  lemma PoppedStep(s: State, o: Obj)
    requires o in s.refs && s.refs[o] != []
    ensures Step(s, Popped(s, o))
  {
  }

  ghost predicate NotDead(s: State, o: Obj) {
    o in s.locks && o in s.refs && o in s.owned && s.locks[o] > 0
  }

  /** What an object being notified may rely on. */
  lemma NotifyingLives(s: State, o: Obj)
    requires Inv(s) && o in s.notifying
    ensures NotDead(s, o)
  {
  }

  lemma Known(s: State, o: Obj)
    requires Inv(s) && o in s.locks
    ensures o in s.refs && o in s.owned && s.locks[o] >= s.owned[o] >= 0
  {
  }

  /** A dead object has no weak references registered, and no weak reference holds it. */
  lemma Forgotten(s: State, o: Obj, w: nat)
    requires Inv(s) && o in s.refs && s.refs[o] == []
    ensures !HeldAt(s.holds, w, o)
  {
    CountAt(s, o, w);
  }

  lemma DeadUnregistered(s: State, o: Obj)
    requires Inv(s) && o in s.log
    ensures o in s.locks && o in s.refs && s.locks[o] == 0 && s.refs[o] == []
  {
  }

  /** A lock and an unlock around a change of the registrations leave only that change. */
  lemma LockUndone(s: State, o: Obj, refs: map<Obj, seq<WeakRef>>, holds: map<nat, Obj>)
    requires o in s.locks && o in s.owned
    ensures Counted(Counted(s, o, 1).(refs := refs, holds := holds), o, -1) == s.(refs := refs, holds := holds)
  {
    assert s.locks[o := s.locks[o]] == s.locks;
    assert s.owned[o := s.owned[o]] == s.owned;
  }

  // ---------- the steps of a run ----------

  /**
   What happens in a run: an action, with or without effect; the notification of an object that has
   lost its last lock, from its temporary lock to its end, with each reference told; a destruction; and
   the end of a piece of code outside, which was entered from nowhere, or began with a listener told or
   a destruction.
   */
  datatype Event =
    | Did(action: Action, ok: bool)
    | Notifying(o: Obj)
    | Told(o: Obj, r: WeakRef)
    | Notified(o: Obj)
    | Destroyed(o: Obj)
    | Entered
    | Left

  /** What is under way: code outside, the end of an object without locks, or its notification. */
  datatype Frame = Code | Last(o: Obj) | Telling(o: Obj)

  /** The state with the rest of the script, what is under way, innermost last, and whether code returns. */
  datatype Machine = Machine(s: State, script: seq<Action>, stack: seq<Frame>, returning: bool) {
    ghost predicate At(f: Frame) { stack != [] && stack[|stack| - 1] == f }

    function Popped(): seq<Frame> { if stack == [] then [] else stack[..|stack| - 1] }
  }

  /** A correct client takes locks of live objects, drops its own, and refers to live objects. */
  predicate CanDo(s: State, a: Action) {
    match a
    case TakeLock(o) => o in s.locks && o in s.owned && s.locks[o] > 0
    case DropLock(o) => o in s.locks && o in s.owned && s.owned[o] > 0
    case AssignWeak(w, target) =>
      && (w in s.holds ==> s.holds[w] in s.refs)
      && (target.None? || (target.value in s.locks && target.value in s.refs && s.locks[target.value] > 0))
    case Register(_, o) => o in s.locks && o in s.refs && s.locks[o] > 0
    case Unregister(_, o) => o in s.locks && o in s.refs && s.locks[o] > 0
    case Return => false
  }

  function Acted(s: State, a: Action): State
    requires CanDo(s, a)
  {
    match a
    case TakeLock(o) => Counted(s, o, 1)
    case DropLock(o) => Counted(s, o, -1)
    case AssignWeak(w, target) => Assigned(s, w, target)
    case Register(l, o) => Registered(s, o, Listener(l))
    case Unregister(l, o) => Unregistered(s, o, Listener(l))
  }

  /** Which step may be next. */
  ghost predicate Allowed(m: Machine, e: Event) {
    var s := m.s;
    && (m.returning ==> e == Left)
    && match e
       case Did(a, ok) => m.At(Code) && m.script != [] && m.script[0] == a && (ok <==> CanDo(s, a))
       case Notifying(o) => m.At(Last(o)) && o in s.locks && o in s.refs && s.refs[o] != []
       case Told(o, r) => m.At(Telling(o)) && o in s.refs && s.refs[o] != [] && s.refs[o][|s.refs[o]| - 1] == r
       case Notified(o) => m.At(Telling(o)) && o in s.locks && o in s.refs && s.refs[o] == []
       case Destroyed(o) => m.At(Last(o)) && o in s.refs && s.refs[o] == []
       case Entered => m.stack == []
       case Left => m.At(Code) && (m.returning || m.script == [])
  }

  ghost function After(m: Machine, e: Event): Machine
    requires Allowed(m, e)
  {
    match e
    case Did(a, ok) =>
      var n := m.(script := m.script[1..], returning := a == Return);
      if !ok then n else if a.DropLock? then Dropped(n, a.o) else n.(s := Acted(m.s, a))
    case Notifying(o) => m.(s := TempLocked(m.s, o), stack := m.stack + [Telling(o)])
    case Told(o, r) => m.(s := Popped(m.s, o), stack := if r.Listener? then m.stack + [Code] else m.stack)
    case Notified(o) =>
      var n := m.(s := TempUnlocked(m.s, o), stack := m.Popped());
      if n.s.locks[o] == 0 then n else n.(stack := n.Popped())
    case Destroyed(o) => m.(s := m.s.(log := m.s.log + [o]), stack := m.Popped() + [Code])
    case Entered => m.(stack := [Code])
    case Left => m.(stack := m.Popped(), returning := false)
  }

  /** A lock is dropped; the last one begins the object's end. */
  function Dropped(m: Machine, o: Obj): Machine
    requires o in m.s.locks && o in m.s.owned
  {
    m.(s := Counted(m.s, o, -1), stack := if m.s.locks[o] == 1 then m.stack + [Last(o)] else m.stack)
  }

  lemma NotifyingStep(m: Machine, o: Obj)
    requires m.At(Last(o)) && !m.returning && o in m.s.locks && o in m.s.refs && m.s.refs[o] != []
    ensures Allowed(m, Notifying(o))
    ensures After(m, Notifying(o)) == m.(s := TempLocked(m.s, o), stack := m.stack + [Telling(o)])
  {
  }

  lemma ToldStep(m: Machine, o: Obj)
    requires m.At(Telling(o)) && !m.returning && o in m.s.refs && m.s.refs[o] != []
    ensures var e := Told(o, m.s.refs[o][|m.s.refs[o]| - 1]);
            && Allowed(m, e)
            && After(m, e) == m.(s := Popped(m.s, o), stack := if e.r.Listener? then m.stack + [Code] else m.stack)
  {
  }

  lemma NotifiedStep(m: Machine, o: Obj)
    requires m.At(Telling(o)) && !m.returning && o in m.s.locks && o in m.s.refs && m.s.refs[o] == []
    ensures Allowed(m, Notified(o))
    ensures var n := m.(s := TempUnlocked(m.s, o), stack := m.Popped());
            After(m, Notified(o)) == if n.s.locks[o] == 0 then n else n.(stack := n.Popped())
  {
  }

  lemma DestroyedStep(m: Machine, o: Obj)
    requires m.At(Last(o)) && !m.returning && o in m.s.refs && m.s.refs[o] == []
    ensures Allowed(m, Destroyed(o))
    ensures After(m, Destroyed(o)) == m.(s := m.s.(log := m.s.log + [o]), stack := m.Popped() + [Code])
  {
  }

  lemma LeftStep(m: Machine)
    requires m.At(Code) && (m.returning || m.script == [])
    ensures Allowed(m, Left) && After(m, Left) == m.(stack := m.Popped(), returning := false)
  {
  }

  lemma ReturnStep(m: Machine)
    requires m.At(Code) && !m.returning && m.script != [] && m.script[0] == Return
    ensures Allowed(m, Did(Return, false))
    ensures After(m, Did(Return, false)) == m.(script := m.script[1..], returning := true)
  {
  }

  /** These steps lead from one machine to the other. */
  ghost predicate Leads(m: Machine, es: seq<Event>, n: Machine) {
    if es == [] then n == m
    else
      var front, last := es[..|es| - 1], es[|es| - 1];
      exists k :: Leads(m, front, k) && Allowed(k, last) && n == After(k, last)
  }

  lemma {:induction false} LeadsOn(m: Machine, es: seq<Event>, n: Machine, fs: seq<Event>, p: Machine)
    requires Leads(m, es, n) && Leads(n, fs, p)
    ensures Leads(m, es + fs, p)
  {
    hide Allowed, After;
    if fs == [] {
      assert es + fs == es;
    } else {
      var k :| Leads(n, fs[..|fs| - 1], k) && Allowed(k, fs[|fs| - 1]) && p == After(k, fs[|fs| - 1]);
      LeadsOn(m, es, n, fs[..|fs| - 1], k);
      assert (es + fs)[..|es + fs| - 1] == es + fs[..|fs| - 1];
    }
  }

  /** What was added to a record of steps leads from one machine to the other. */
  ghost predicate Path(m: Machine, es: seq<Event>, fs: seq<Event>, n: Machine) {
    es <= fs && Leads(m, fs[|es|..], n)
  }

  lemma PathNone(m: Machine, es: seq<Event>)
    ensures Path(m, es, es, m)
  {
  }

  function Times(es: seq<Event>, e: Event): nat { multiset(es)[e] }

  /** Clients own the locks they started with and took, less those they dropped. */
  lemma {:induction false} OwnedCounted(m: Machine, es: seq<Event>, n: Machine, o: Obj)
    requires Leads(m, es, n) && o in m.s.owned
    ensures o in n.s.owned
    ensures n.s.owned[o] - m.s.owned[o] == Times(es, Did(TakeLock(o), true)) - Times(es, Did(DropLock(o), true))
  {
    if es != [] {
      hide Allowed, After;
      var front, e := es[..|es| - 1], es[|es| - 1];
      assert es == front + [e];
      var k :| Leads(m, front, k) && Allowed(k, e) && n == After(k, e);
      OwnedCounted(m, front, k, o);
      OwnedStep(k, e, o);
    }
  }

  lemma OwnedStep(k: Machine, e: Event, o: Obj)
    requires Allowed(k, e) && o in k.s.owned
    ensures o in After(k, e).s.owned
    ensures After(k, e).s.owned[o] - k.s.owned[o]
         == if e == Did(TakeLock(o), true) then 1 else if e == Did(DropLock(o), true) then -1 else 0
  {
    hide Registered, Unregistered, TempLocked, TempUnlocked, Popped, Assigned;
    match e
    case Did(AssignWeak(w, target), true) => AssignedStep(k.s, w, target);
    case Did(Register(l, p), true) => RegisteredOwned(k.s, p, Listener(l));
    case Did(Unregister(l, p), true) => RegisteredOwned(k.s, p, Listener(l));
    case Notifying(p) => TempOwned(k.s, p);
    case Notified(p) => TempOwned(k.s, p);
    case Told(p, _) => PoppedOwned(k.s, p);
    case _ =>
  }

  lemma RegisteredOwned(s: State, o: Obj, r: WeakRef)
    requires o in s.refs
    ensures Registered(s, o, r).owned == s.owned && Unregistered(s, o, r).owned == s.owned
  {
  }

  lemma TempOwned(s: State, o: Obj)
    requires o in s.locks
    ensures TempLocked(s, o).owned == s.owned && TempUnlocked(s, o).owned == s.owned
    ensures TempLocked(s, o).locks.Keys == s.locks.Keys == TempUnlocked(s, o).locks.Keys
  {
  }

  lemma PoppedOwned(s: State, o: Obj)
    requires o in s.refs && s.refs[o] != []
    ensures Popped(s, o).owned == s.owned
  {
  }

  lemma PathWhole(m: Machine, es: seq<Event>, n: Machine)
    requires Path(m, [], es, n)
    ensures Leads(m, es, n)
  {
    assert es[0..] == es;
  }

  lemma PathNext(m: Machine, es: seq<Event>, fs: seq<Event>, n: Machine, e: Event)
    requires Path(m, es, fs, n) && Allowed(n, e)
    ensures Path(m, es, fs + [e], After(n, e))
  {
    hide Allowed, After;
    var gs := (fs + [e])[|es|..];
    assert gs[..|gs| - 1] == fs[|es|..];
  }

  lemma PathTrans(m: Machine, es: seq<Event>, fs: seq<Event>, n: Machine, gs: seq<Event>, p: Machine)
    requires Path(m, es, fs, n) && Path(n, fs, gs, p)
    ensures Path(m, es, gs, p)
  {
    hide Leads;
    LeadsOn(m, fs[|es|..], n, gs[|fs|..], p);
    assert fs[|es|..] + gs[|fs|..] == gs[|es|..];
  }

  lemma AssignedStep(s: State, w: nat, target: Option<Obj>)
    requires w in s.holds ==> s.holds[w] in s.refs
    requires target.Some? ==> target.value in s.refs
    ensures Step(s, Assigned(s, w, target)) && Assigned(s, w, target).owned == s.owned
  {
  }

  lemma CanDoKnown(s: State, a: Action)
    requires Inv(s)
    ensures a.TakeLock? ==> (CanDo(s, a) <==> a.o in s.locks && s.locks[a.o] > 0)
    ensures a.Register? || a.Unregister? ==> (CanDo(s, a) <==> a.o in s.locks && s.locks[a.o] > 0)
    ensures a.AssignWeak? ==>
              (CanDo(s, a) <==> a.target.None? || (a.target.value in s.locks && s.locks[a.target.value] > 0))
  {
    hide NoDup, Count;
  }

  class World {
    var locks: map<Obj, int>
    var refs: map<Obj, seq<WeakRef>>
    var holds: map<nat, Obj>
    var log: seq<Obj>
    var owned: map<Obj, int>
    ghost var notifying: set<Obj>
    var script: seq<Action>
    ghost var steps: seq<Event>
    ghost var stack: seq<Frame>

    ghost function St(): State
      reads this
    {
      State(locks, refs, holds, log, owned, notifying)
    }

    ghost function Now(): Machine
      reads this
    {
      Machine(St(), script, stack, false)
    }

    /** Objects start with one client lock each and no weak references. */
    constructor (objects: set<Obj>, script: seq<Action>)
      ensures Inv(St()) && log == [] && locks.Keys == objects && this.script == script
      ensures St() == Initial(objects) && steps == [] && stack == []
    {
      locks := map o | o in objects :: 1;
      owned := map o | o in objects :: 1;
      refs := map o | o in objects :: [];
      holds := map[];
      log := [];
      notifying := {};
      this.script := script;
      steps, stack := [], [];
    }

    method Lock(o: Obj)
      requires o in locks && o in owned
      modifies `locks, `owned
      ensures locks == old(locks)[o := old(locks[o]) + 1] && owned == old(owned)[o := old(owned[o]) + 1]
      ensures St() == Counted(old(St()), o, 1)
    {
      locks := locks[o := locks[o] + 1];
      owned := owned[o := owned[o] + 1];
    }

    /**
     Releases a lock. The last one notifies every registered reference, those registered during
     the notification included, and then destroys the object unless it was locked again.
     */
    method Unlock(o: Obj)
      requires o in locks && o in owned && o in refs && owned[o] > 0 && locks[o] > 0
      requires locks[o] == 1 ==> Inv(St())
      modifies this
      ensures old(locks[o]) > 1 ==> St() == Counted(old(St()), o, -1) && script == old(script)
      ensures old(locks[o]) > 1 ==> steps == old(steps)
      ensures Path(Dropped(old(Now()), o), old(steps), steps, Now()) && stack == old(stack)
      ensures old(locks[o]) == 1 ==> Inv(St()) && Step(old(St()), St()) && |script| <= old(|script|)
      ensures old(locks[o]) == 1 ==> o in refs && refs[o] == []
      ensures old(locks[o]) == 1 && old(refs[o]) == [] ==> old(log) + [o] <= log
      decreases |script|, 3
    {
      hide Inv, InvExcept, NoDup, Path, Allowed, After;
      ghost var s := St();
      if locks[o] == 1 { LastDropped(s, o); }
      locks := locks[o := locks[o] - 1];
      owned := owned[o := owned[o] - 1];
      var count := locks[o];
      if count == 0 {
        AboutToGo(s, St(), o);
        stack := stack + [Last(o)];
      }
      ghost var m := Now();
      PathNone(m, steps);
      while count == 0 && refs[o] != []
        invariant o in locks && o in refs && count == locks[o]
        invariant s.locks[o] > 1 ==> St() == Counted(s, o, -1) && script == old(script)
        invariant s.locks[o] > 1 ==> steps == old(steps)
        invariant Path(m, old(steps), steps, Now())
        invariant stack == if count == 0 then old(stack) + [Last(o)] else old(stack)
        invariant s.locks[o] == 1 && count == 0 ==> InvExcept(St(), Some(o)) && o !in notifying
        invariant s.locks[o] == 1 && count != 0 ==> Inv(St()) && refs[o] == []
        invariant s.locks[o] == 1 ==> Step(s, St())
        invariant |script| <= old(|script|)
        invariant s.refs[o] == [] ==> log == s.log && count == s.locks[o] - 1
        decreases |refs[o]|
      {
        ghost var t, so := Now(), steps;
        NotifyLocked(o);
        PathTrans(m, old(steps), so, t, steps, Now());
        count := locks[o];
      }
      if count == 0 {
        ghost var t, so := Now(), steps;
        Destroy(o);
        PathTrans(m, old(steps), so, t, steps, Now());
      }
    }

    /** One round of notification, under a temporary lock. */
    method NotifyLocked(o: Obj)
      requires InvExcept(St(), Some(o)) && o in locks && o in refs
      requires locks[o] == 0 && o !in notifying && refs[o] != [] && Now().At(Last(o))
      modifies this
      ensures o in locks && o in refs && refs[o] == [] && o !in notifying
      ensures if locks[o] == 0 then InvExcept(St(), Some(o)) else Inv(St())
      ensures Step(old(St()), St()) && |script| <= old(|script|)
      ensures Path(old(Now()), old(steps), steps, Now())
      ensures stack == if locks[o] == 0 then old(stack) else old(Now()).Popped()
      decreases |script|, 2, 1
    {
      hide Inv, InvExcept, NoDup, Path, Allowed, After;
      ghost var m := Now();
      PathNone(m, steps);
      NotifyingStep(m, o);
      PathNext(m, steps, steps, m, Notifying(o));
      TempLockedKeeps(St(), o);
      locks := locks[o := locks[o] + 1];
      notifying := notifying + {o};
      steps, stack := steps + [Notifying(o)], stack + [Telling(o)];
      ghost var t, so := Now(), steps;
      NotifyWeakRefs(o);
      PathTrans(m, old(steps), so, t, steps, Now());
      NotifyingLives(St(), o);
      NotifiedStep(Now(), o);
      PathNext(m, old(steps), steps, Now(), Notified(o));
      TempUnlockedKeeps(St(), o);
      locks := locks[o := locks[o] - 1];
      notifying := notifying - {o};
      steps, stack := steps + [Notified(o)], stack[..|stack| - 1];
      if locks[o] != 0 {
        stack := stack[..|stack| - 1];
      }
    }

    /** Takes off registrations from the back until none is left, telling each one. */
    method NotifyWeakRefs(o: Obj)
      requires Inv(St()) && o in notifying && o in refs && Now().At(Telling(o))
      modifies this
      ensures Inv(St()) && Step(old(St()), St()) && |script| <= old(|script|)
      ensures o in refs && refs[o] == []
      ensures Path(old(Now()), old(steps), steps, Now()) && stack == old(stack)
      decreases |script|, 2, 0
    {
      hide Inv, NoDup, Path, Allowed, After, Step;
      ghost var m := Now();
      PathNone(m, steps);
      assert Step(St(), St()) by { StepSelf(St()); }
      while refs[o] != []
        invariant Inv(St()) && Step(old(St()), St()) && o in refs && o in notifying
        invariant Path(m, old(steps), steps, Now()) && stack == old(stack)
        invariant |script| <= old(|script|)
        decreases |script|, |refs[o]|
      {
        NotifyingLives(St(), o);
        PoppedKeeps(St(), o);
        var n := |refs[o]| - 1;
        var r := refs[o][n];
        ToldStep(Now(), o);
        PoppedStep(St(), o);
        StepTrans(old(St()), St(), Popped(St(), o));
        PathNext(m, old(steps), steps, Now(), Told(o, r));
        refs := refs[o := refs[o][..n]];
        steps := steps + [Told(o, r)];
        match r {
          case Base(id) => holds := holds - {id};
          case Listener(_) =>
            stack := stack + [Code];
            ghost var t, so := Now(), steps;
            RunCallback();
            PathTrans(m, old(steps), so, t, steps, Now());
            StepFacts(t.s, St(), o);
            StepTrans(old(St()), t.s, St());
            NotifyingLives(St(), o);
        }
      }
    }

    /** Runs once per object, only without locks and registered references; its destructor runs code. */
    method Destroy(o: Obj)
      requires InvExcept(St(), Some(o)) && o in locks && o in refs
      requires locks[o] == 0 && refs[o] == [] && Now().At(Last(o))
      modifies this
      ensures Inv(St()) && Step(old(St()), St()) && |script| <= old(|script|)
      ensures old(log) + [o] <= log
      ensures o in refs && refs[o] == []
      ensures Path(old(Now()), old(steps), steps, Now()) && stack == old(Now()).Popped()
      decreases |script|, 2
    {
      hide Inv, InvExcept, NoDup, Path, Allowed, After;
      ghost var m := Now();
      PathNone(m, steps);
      DestroyedStep(m, o);
      PathNext(m, steps, steps, m, Destroyed(o));
      DestroyedKeeps(St(), o);
      log := log + [o];
      steps, stack := steps + [Destroyed(o)], stack[..|stack| - 1] + [Code];
      ghost var n, so := Now(), steps;
      ghost var t := St();
      RunCallback();
      PathTrans(m, old(steps), so, n, steps, Now());
      assert o in t.log;
      DeadUnregistered(St(), o);
    }

    /** Code outside the object system: any finite sequence of actions, each of which may nest. */
    method RunCallback()
      requires Inv(St()) && Now().At(Code)
      modifies this
      ensures Inv(St()) && Step(old(St()), St())
      ensures if old(script) == [] then St() == old(St()) && script == [] else |script| < old(|script|)
      ensures stack == old(Now()).Popped() && Path(old(Now()), old(steps), steps, Now())
      decreases |script|, 1
    {
      hide Inv, NoDup, Path, Allowed, After;
      ghost var m := Now();
      PathNone(m, steps);
      while script != []
        invariant Inv(St()) && Step(old(St()), St()) && stack == old(stack)
        invariant (script == old(script) && St() == old(St())) || |script| < old(|script|)
        invariant Path(m, old(steps), steps, Now())
        decreases |script|
      {
        ghost var t, so := Now(), steps;
        var action := script[0];
        script := script[1..];
        if action == Return {
          ReturnStep(t);
          LeftStep(After(t, Did(Return, false)));
          PathNext(m, old(steps), steps, t, Did(Return, false));
          PathNext(m, old(steps), steps + [Did(Return, false)], After(t, Did(Return, false)), Left);
          steps, stack := steps + [Did(Return, false)] + [Left], stack[..|stack| - 1];
          return;
        }
        Perform(action);
        assert t == t.(script := [action] + t.script[1..]);
        PathTrans(m, old(steps), so, t, steps, Now());
      }
      LeftStep(Now());
      PathNext(m, old(steps), steps, Now(), Left);
      steps, stack := steps + [Left], stack[..|stack| - 1];
    }

    method Perform(action: Action)
      requires Inv(St()) && Now().At(Code) && action != Return
      modifies this
      ensures Inv(St()) && Step(old(St()), St()) && |script| <= old(|script|) && stack == old(stack)
      ensures Path(old(Now()).(script := [action] + old(script)), old(steps), steps, Now())
      decreases |script|, 5
    {
      hide Inv, NoDup, Path, Assigned;
      CanDoKnown(St(), action);
      ghost var m := Now().(script := [action] + script);
      ghost var ok := CanDo(St(), action);
      PathNone(m, steps);
      PathNext(m, steps, steps, m, Did(action, ok));
      steps := steps + [Did(action, ok)];
      match action {
        case TakeLock(o) =>
          if o in locks && locks[o] > 0 {
            Known(St(), o);
            CountedKeeps(St(), o, 1);
            Lock(o);
          }
        case DropLock(o) =>
          if o in locks && o in owned && owned[o] > 0 {
            Known(St(), o);
            if locks[o] > 1 { CountedKeeps(St(), o, -1); }
            ghost var so := steps;
            ghost var n := Dropped(Now(), o);
            Unlock(o);
            PathTrans(m, old(steps), so, n, steps, Now());
          }
        case AssignWeak(w, target) =>
          if target.None? || (target.value in locks && locks[target.value] > 0) {
            if target.Some? { Known(St(), target.value); }
            AssignedKeeps(St(), w, target);
            AssignedStep(St(), w, target);
            Assign(w, target);
          }
        case Register(l, o) =>
          if o in locks && locks[o] > 0 {
            Known(St(), o);
            ListenerKeeps(St(), o, l);
            WeakRefRegister(o, Listener(l));
          }
        case Unregister(l, o) =>
          if o in locks && locks[o] > 0 {
            Known(St(), o);
            ListenerKeeps(St(), o, l);
            WeakRefUnregister(o, Listener(l));
          }
      }
    }

    method WeakRefRegister(o: Obj, r: WeakRef)
      requires o in refs
      modifies `refs
      ensures refs == old(refs)[o := old(refs[o]) + [r]] && St() == Registered(old(St()), o, r)
    {
      refs := refs[o := refs[o] + [r]];
    }

    /** Erases the first registration of `r`, if there is one. */
    method WeakRefUnregister(o: Obj, r: WeakRef)
      requires o in refs
      modifies `refs
      ensures St() == Unregistered(old(St()), o, r)
      ensures r !in old(refs[o]) ==> refs == old(refs)
      ensures r in old(refs[o]) ==>
                exists i :: 0 <= i < |old(refs[o])| && old(refs[o])[i] == r && r !in old(refs[o])[..i]
                            && refs == old(refs)[o := old(refs[o])[..i] + old(refs[o])[i + 1..]]
    {
      hide Erased;
      var rs := refs[o];
      var i := 0;
      while i < |rs| && rs[i] != r
        invariant 0 <= i <= |rs|
        invariant r !in rs[..i]
      {
        i := i + 1;
      }
      if i < |rs| {
        ErasedAt(rs, i, r);
        refs := refs[o := rs[..i] + rs[i + 1..]];
      } else {
        ErasedAbsent(rs, r);
        assert refs == refs[o := rs];
      }
    }

    /** A weak reference lets go of what it held and takes hold of the target; nothing else changes. */
    method Assign(w: nat, target: Option<Obj>)
      requires Inv(St())
      requires w in holds ==> holds[w] in refs
      requires target.Some? ==> NotDead(St(), target.value) && owned[target.value] >= 0
      modifies this
      ensures St() == Assigned(old(St()), w, target) && script == old(script)
      ensures steps == old(steps) && stack == old(stack)
      decreases |script|, 4
    {
      hide Inv, Erased, NoDup;
      if w in holds {
        NoDangling(St(), w);
        Release(w);
      }
      holds := holds - {w};
      if target.Some? {
        Acquire(w, target.value);
      }
    }

    method Release(w: nat)
      requires w in holds && NotDead(St(), holds[w])
      requires owned[holds[w]] >= 0
      modifies this
      ensures old(holds[w]) in old(refs)
      ensures St() == Unregistered(old(St()), old(holds[w]), Base(w)) && script == old(script)
      ensures steps == old(steps) && stack == old(stack)
      decreases |script|, 4, 0
    {
      hide Inv, Erased, NoDup;
      var p := holds[w];
      Lock(p);
      WeakRefUnregister(p, Base(w));
      Unlock(p);
      LockUndone(old(St()), p, refs, holds);
    }

    method Acquire(w: nat, p: Obj)
      requires NotDead(St(), p) && owned[p] >= 0
      modifies this
      ensures St() == Registered(old(St()), p, Base(w)).(holds := old(holds)[w := p]) && script == old(script)
      ensures steps == old(steps) && stack == old(stack)
      decreases |script|, 4, 0
    {
      hide Inv, Erased, NoDup;
      Lock(p);
      WeakRefRegister(p, Base(w));
      holds := holds[w := p];
      Unlock(p);
      LockUndone(old(St()), p, refs, holds);
    }
  }

  function Initial(objects: set<Obj>): State {
    State(map o | o in objects :: 1, map o | o in objects :: [], map[], [], map o | o in objects :: 1, {})
  }

  /**
   Any run, from any number of objects: each object is destroyed at most once, exactly those
   without locks were, and a weak reference holds an object exactly when it is registered at it,
   which is never a destroyed one. The run is made of allowed steps, which carry out the whole script.
   */
  method Run(objects: set<Obj>, script: seq<Action>)
    returns (log: seq<Obj>, locks: map<Obj, int>, refs: map<Obj, seq<WeakRef>>, holds: map<nat, Obj>,
             ghost owned: map<Obj, int>, ghost steps: seq<Event>)
    ensures Leads(Machine(Initial(objects), script, [], false), steps,
                  Machine(State(locks, refs, holds, log, owned, {}), [], [], false))
    ensures locks.Keys == objects && refs.Keys == objects
    ensures NoDup(log)
    ensures forall o | o in objects :: (o in log <==> locks[o] == 0) && (o in log ==> refs[o] == [])
    ensures forall w | w in holds :: holds[w] in objects && holds[w] !in log
    ensures forall w, o | o in objects :: Count(refs[o], Base(w)) == if HeldAt(holds, w, o) then 1 else 0
  {
    var world := new World(objects, script);
    hide Path;
    ghost var m := world.Now();
    PathNone(m, []);
    while world.script != []
      invariant fresh(world)
      invariant Inv(world.St()) && world.locks.Keys == objects && world.stack == [] && world.notifying == {}
      invariant Path(m, [], world.steps, world.Now())
      decreases |world.script|
    {
      PathNext(m, [], world.steps, world.Now(), Entered);
      world.steps, world.stack := world.steps + [Entered], [Code];
      ghost var t, so := world.Now(), world.steps;
      world.RunCallback();
      PathTrans(m, [], so, t, world.steps, world.Now());
    }
    owned, steps := world.owned, world.steps;
    PathWhole(m, steps, world.Now());
    log, locks, refs, holds := world.log, world.locks, world.refs, world.holds;
    forall w | w in holds ensures holds[w] in objects && holds[w] !in log {
      NoDangling(world.St(), w);
    }
  }
}

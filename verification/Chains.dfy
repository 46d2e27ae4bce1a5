/** Class chains: a class and its parents, each with the place of its members. */
module Chains {
  import opened Basics
  import opened ObjectModel

  datatype Link = Link(cls: ClassInfo, at: int)

  /** From each class to its parent, placed relative to it, up to a class without one. */
  ghost predicate IsChain(cls: ClassInfo, at: int, ls: seq<Link>) {
    && ls != [] && ls[0] == Link(cls, at) && ls[|ls| - 1].cls.parent.None?
    && forall i | 0 <= i < |ls| - 1 ::
         ls[i].cls.parent == Some(ls[i + 1].cls) && ls[i + 1].at == ls[i].at + ls[i].cls.offsetToParent
  }

  function Links(cls: ClassInfo, at: int): (ls: seq<Link>)
    ensures IsChain(cls, at, ls)
  {
    [Link(cls, at)] + if cls.parent.Some? then Links(cls.parent.value, at + cls.offsetToParent) else []
  }

  lemma ChainTail(cls: ClassInfo, at: int, ls: seq<Link>)
    requires IsChain(cls, at, ls)
    ensures cls.parent.None? ==> ls == [Link(cls, at)]
    ensures cls.parent.Some? ==>
              |ls| > 1 && IsChain(cls.parent.value, at + cls.offsetToParent, ls[1..]) && ls == [Link(cls, at)] + ls[1..]
  {
    assert |ls| > 1 ==> cls.parent == Some(ls[0 + 1].cls);
    if |ls| > 1 {
      var rest := ls[1..];
      assert rest[|rest| - 1] == ls[|ls| - 1];
      forall i | 0 <= i < |rest| - 1
        ensures rest[i].cls.parent == Some(rest[i + 1].cls) && rest[i + 1].at == rest[i].at + rest[i].cls.offsetToParent
      {
        assert rest[i] == ls[i + 1] && rest[i + 1] == ls[i + 2];
      }
    }
  }

  /** There is one chain for each class and place. */
  lemma {:induction false} OneChain(cls: ClassInfo, at: int, ls: seq<Link>)
    requires IsChain(cls, at, ls)
    ensures ls == Links(cls, at)
  {
    hide IsChain;
    ChainTail(cls, at, ls);
    if cls.parent.Some? {
      OneChain(cls.parent.value, at + cls.offsetToParent, ls[1..]);
    }
  }

  lemma ChainRest(cls: ClassInfo, at: int)
    ensures cls.parent.None? ==> Links(cls, at) == [Link(cls, at)]
    ensures cls.parent.Some? ==> Links(cls, at) == [Link(cls, at)] + Links(cls.parent.value, at + cls.offsetToParent)
  {
    hide IsChain;
  }

  // ---------- places in a chain ----------

  /** An entry of a member table, or else an item of a container, of one link of a chain. */
  datatype Place = Place(link: nat, item: bool, index: nat)

  /** Link by link, the members before the items. */
  predicate Before(a: Place, b: Place) {
    a.link < b.link || (a.link == b.link && ((b.item && !a.item) || (a.item == b.item && a.index < b.index)))
  }

  predicate Within(first: Place, p: Place, end: Place) {
    !Before(p, first) && Before(p, end)
  }

  /** The things that the places from `first` up to `end` give, in order, each for its own place. */
  ghost predicate Enumerates<E(!new)>(gives: (Place, E) -> bool, first: Place, end: Place, es: seq<E>, ps: seq<Place>) {
    && |ps| == |es|
    && (forall i | 0 <= i < |ps| :: Within(first, ps[i], end) && gives(ps[i], es[i]))
    && (forall i, j | 0 <= i < j < |ps| :: Before(ps[i], ps[j]))
    && (forall p, e | gives(p, e) && Within(first, p, end) :: p in ps)
  }

  lemma EnumeratesTwo<E(!new)>(gives: (Place, E) -> bool, a: Place, b: Place, c: Place, es: seq<E>, ps: seq<Place>,
          fs: seq<E>, qs: seq<Place>)
    requires Enumerates(gives, a, b, es, ps) && Enumerates(gives, b, c, fs, qs)
    requires !Before(b, a) && !Before(c, b)
    ensures Enumerates(gives, a, c, es + fs, ps + qs)
  {
  }

  lemma EnumeratesNone<E(!new)>(gives: (Place, E) -> bool, a: Place, b: Place)
    requires forall p, e | Within(a, p, b) :: !gives(p, e)
    ensures Enumerates(gives, a, b, [], [])
  {
  }

  function Next(p: Place): Place { p.(index := p.index + 1) }

  lemma EnumeratesOne<E(!new)>(gives: (Place, E) -> bool, p: Place, es: seq<E>)
    requires es == [] ==> forall e :: !gives(p, e)
    requires es != [] ==> |es| == 1 && gives(p, es[0])
    ensures Enumerates(gives, p, Next(p), es, if es == [] then [] else [p])
  {
    assert forall q | Within(p, q, Next(p)) :: q == p;
  }
}

/** What every module of the model shares. */
module Basics {

  datatype Option<+T> = None | Some(value: T)

  ghost predicate NoDup<T>(s: seq<T>) {
    forall i, j | 0 <= i < j < |s| :: s[i] != s[j]
  }

  /** The first place of a key, or the length when it is not there. */
  function IndexOf(ks: seq<string>, key: string): (i: nat)
    ensures i <= |ks| && (i < |ks| ==> ks[i] == key)
    ensures i < |ks| <==> key in ks
  {
    if ks == [] || ks[0] == key then 0 else 1 + IndexOf(ks[1..], key)
  }
}

/**
 The object heap shared by the other modules.

 Every allocation is a `Block`; an object is an address inside a block. Offset 0 is the
 allocated object itself, any other offset is an object embedded in it (an `IROOT` member).
 A class is a chain of member tables, each placed relative to the previous one.
 */
module ObjectModel {

  import opened Basics

  /** A canonical object address: what GetRootObject answers. */
  datatype Ref = Null | At(block: nat, off: int)

  datatype VarType = Plain | RootPtr | Root(cls: ClassInfo)

  datatype VarEntry = VarEntry(name: string, varType: VarType, offset: int, persist: bool, rpersist: bool)

  datatype Container = NoContainer | ListContainer | DictContainer

  datatype ClassInfo = ClassInfo(
    clsid: nat, members: seq<VarEntry>, container: Container, offsetToParent: int, parent: Option<ClassInfo>)

  /**
   Cells are addressed from the start of the block. `classes` is what the virtual ClassType call
   answers at an address; a list or dict keeps its items in `items`, in iteration order, and `keys` has
   the keys a dict gives by index: all of them, unless its key cache misses some.
   */
  datatype Block = Block(
    classes: map<int, ClassInfo>,
    vals: map<int, int>,
    ptrs: map<int, Ref>,
    items: map<int, seq<Ref>>,
    keys: map<int, seq<string>>,
    locks: int)

  type Heap = map<nat, Block>

  predicate IsObject(h: Heap, r: Ref) {
    r.At? && r.block in h && r.off in h[r.block].classes
  }

  /** An object with an allocation of its own, as opposed to an embedded one. */
  predicate IsHeapObject(h: Heap, r: Ref) {
    IsObject(h, r) && r.off == 0
  }

  function ClassOf(h: Heap, r: Ref): ClassInfo
    requires IsObject(h, r)
  {
    h[r.block].classes[r.off]
  }
}

# Verified model of the Blue object system

Blue exposes C++ objects to Python: reference-counted objects with described members, lists,
dictionaries and structure lists of them, a deep copier, searches over the object graph and a pool
of Python wrappers. This project models its algorithms in Dafny and proves what they are for.

| files | what they model |
|---|---|
| `Basics`, `ObjectModel`, `Layout`, `References` | what all modules share, and the object heap: allocations with embedded objects, class chains, cells, lock counts, and how many cells refer to an object |
| `CloneInvariant`, `CloneProgress`, `CloneSteps`, `CloneContents`, `Copier`, `CloneTheorem`, `Aliasing`, `CopyInto` | the deep copier as a class over that heap, the theorem that a finished clone is an isomorphic copy with exact lock counts, the classes for which there is none, and copies into an object that exists already |
| `Chains`, `Cells` | class chains, and what a copy is about in terms of members and containers |
| `Children`, `Edges`, `Search`, `FindReferences`, `Records` | enumeration of children and the stack searches over them, what the edges are, and what the records of a search say |
| `Routes`, `RouteSteps` | the route enumerator, recorded route steps and their replay |
| `Validate`, `Reports` | the cycle report, and reading it back |
| `WeakRefs`, `PendingDeletes`, `WrapperPool`, `SmartPtrs` | the lifetime protocols, with callbacks that run arbitrary code |
| `HalfFloat`, `Structures` | half precision floats and structure packing |
| `Ledger`, `BlueLists`, `BlueDicts`, `Containers` | the containers, their observers and the locks they hold |
| `MemberIterator` | the iterator over persistent members |

An object is an address: an allocation and an offset in it, offset 0 being the allocated object.
`GetRootObject` is taken to answer this address. Methods that change state are proved against
functions of the old state, against the invariant of a whole run, or step by step against an
abstract machine; the invariant and step lemmas beside them carry the proofs. A class whose one interface table names a list and a dictionary is
written as two links of its chain, which have the same edges in the same order.

Some results need a word on how they are stated.

* **Clone.** `IsCloneOf` says that the source is unchanged, that the map from originals to clones is
  a bijection between everything reachable and the new allocations, that it commutes with every
  persistent cell, and that every clone's lock count is the number of cells that refer to it, plus
  one for the root. `FollowCommutes` turns this into what a client sees along any path. The copier
  remembers clones by pointers without locks, and a list or dictionary empties its destination
  first. A class that exposes one container under two persistent names therefore has it emptied of
  clones that were just stored there. The model stops at the first clone that so loses its last
  lock; `Aliasing.CloneWorst` shows for each class that this can happen if and only if the class
  exposes some container twice.
* **Copy into an object.** A destination that exists already is not in the map. `CopyInto` states
  what a copy into it does, and `CopyUnlessCycle` that it becomes a copy of the source if and only if
  no cycle leads back to the source; otherwise the source is cloned a second time. Such a copy fails
  exactly if a pointer is null in the source only, where the code takes the null for an error.
* **Callbacks.** In `WeakRefs` and `WrapperPool` destructors, notifications and Python callbacks run
  a finite script of actions that may nest in each other in any way; actions a correct client could
  not take have no effect. The script's length is the budget that bounds termination, so every
  result holds for every finite behaviour of the outside. A wrapper's destroy handler may also
  wrap its object again, which hands out a wrapper that is then torn down. `TeardownExactly` shows
  that a teardown is sound exactly when its handler has not done so, `KeptReference` and
  `DroppedReference` show both ways in which it then fails, and a `Run` ends at the first one.
* **Steps of a run.** An invariant says nothing of a run in which nothing happens. `WeakRefs.Run` and
  `WrapperPool.Run` therefore also answer the steps they made: `Leads` says that each was the one
  allowed by what was under way (which code was running, which object was at its end, which teardown
  had got how far), and that together they carry out the whole script. In `Containers.Run` `Did` says the
  same of each operation.
* **What functions decide.** Loops are proved against functions that follow them closely. What these
  decide is stated once more without them: the leaves of a class in `Cells.LeavesExactly` and
  `ClonedCells`, the edges of the graph in `GraphEdges.EdgesInOrder`, matching in `Search.MatchExactly`,
  records and steps in `Records`, the names of a report in `Reports`, and the formats of structures by
  their numbers in `Structures.IntegerStored` and the lemmas after it. All of them describe classes by
  `Chains.IsChain`: from each class to its parent, placed relative to it.
* **Dictionary keys.** The searches look up the items of a dictionary by key, and the key by index in
  the dictionary's key cache. An index without a key makes the source look up a null string. A
  dictionary of the object graph therefore carries the keys its cache has. The searches say when they
  are undefined: when they get to a dictionary with fewer keys than items.
  `BlueDicts.BlueDict.EnumerateItems` shows that this is the case exactly for an incomplete cache, as
  `BlueDicts.KeyAfterInsert` leaves it behind.
* **Half floats.** A magnitude is counted in units of 2^-24, the smallest positive half. In these
  units the decoder is `Units` and the encoder is `Code`, and both satisfy simple recurrences.
  Exponent 31 is ordinary, unlike in section 3.4 of IEEE 754-2008, and the code 0x7fff is the only
  special magnitude.

Where the code differs from what one would expect, the model follows the code and proves exactly
when it does what it should: `Aliasing.CloneWorst`, `CopyInto.CopyInto`, `CopyInto.CopyUnlessCycle`,
`RouteSteps.ItemsReplayExactly`, `RouteSteps.StepsRecorded`, `WrapperPool.TeardownExactly`,
`HalfFloat.SubnormalRounding`, `HalfFloat.CodeNearest`, `HalfFloat.Overflow`,
`Structures.StructureList.PyInsert`, `BlueLists.DoubledBalance`,
`BlueLists.SelfSliceExactly`, `BlueDicts.SurvivesRelease`, `BlueDicts.BlueDict.Insert`,
`BlueDicts.KeyAfterInsert`, `SmartPtrs.MoveBalance`.

## Model

| member | source | states |
|---|---|---|
| `CopierModel.CloneTo` | Copier.cpp:45-134 | for every well-formed finite heap, cyclic or shared, whatever its classes expose, cloning terminates: with a clone in the sense of `IsCloneOf`, every container of the root having been emptied without a loss when its turn came, or at the first clone that loses its last lock while the map still leads to it; the latter never happens when each class exposes each of its containers once |
| `Cells.ClonedCells` | Copier.cpp:138-213 | in a clone every object, and every object embedded in one by a chain of persistent members, has the same class, equal persistent values, the clones' references in persistent pointer members, and in the container that a cast finds the clones of the items in order, under the same keys |
| `Cells.LeavesExactly` | Copier.cpp:151-200 | what is copied of an object is exactly the persistent members of all tables of its class chain and the first container of the chain, and the same for each object embedded by a persistent member |
| `Cells.EdgeExactly` | Copier.cpp:151-200 | one object leads to another for the copier if and only if it, or an object embedded in it, holds it in a persistent pointer member or in its first container |
| `Cells.ClonedNowhereElse` | Copier.cpp:151-200 | a clone refers to nothing from any other cell |
| `Chains.OneChain` | Copier.cpp:151-156 | there is one chain from a class to its last parent, each placed relative to the one before |
| `Aliasing.CloneWorst` | include/BlueListUtil.h:507-541 | for every class that has an instance there is a source on which a clone is destroyed, if and only if the class exposes some container twice |
| `Aliasing.SharedLoses` | Copier.cpp:66-82 | for a class that exposes a container twice, one item in it is enough: no copy gets past the second emptying |
| `Aliasing.EmptiedTwice` | include/BlueListUtil.h:514-541 | whatever the copy did before, when the container is emptied for the second time the clone in it has no lock but from there |
| `Aliasing.CloneTwoNames` | include/BlueListUtil.h:507-541 | cloning one object with one list under the names children and items, with one item, leaves the map leading to a clone without locks |
| `CopyInto.CopyInto` | Copier.cpp:45-134 | into an object that exists already, with the objects it refers to apart from the source's: refused for another class; fails exactly if some persistent pointer is null in the source only; however it ends, unless a clone is destroyed, the source is untouched, every clone made is complete, and all lock counts, those of the destination's old objects included, have changed as the cells have; on success everything behind the source is cloned; with distinct containers no clone is destroyed |
| `CopyInto.CopyUnlessCycle` | Copier.cpp:66-94 | the source is cloned a second time if and only if a cycle leads back to it, because the destination is not in the map; if and only if none does, there is an isomorphism from all that the source reaches onto copies, with the destination for the source |
| `CopyInto.NoCopyOnCycle` | Copier.cpp:66-94 | on a cycle no map whatever, also none but the copier's, makes the destination a copy of the source |
| `CopyInto.CopyWithoutCycle` | Copier.cpp:66-94 | without a cycle the copier's map, with the destination for the source, is such an isomorphism |
| `CopyInto.AgreeAlong` | Copier.cpp:138-213 | two maps that commute with every cell and agree on an object agree on everything it reaches |
| `CopyInto.EndConsistent` | Copier.cpp:111-126 | also a copy that failed leaves complete clones and right lock counts |
| `CopierModel.Copier.CopyTo` | Copier.cpp:45-134 | without a destination, one new reference to the clone of the source, made now or found in the map, everything it added to the map completely copied; with one, that of the whole copy or embedded in it or in a clone, its cells copied, failing exactly if a pointer is null in the source only, or refused for another class; the map is cleared at level 0 |
| `CopierModel.Copier.Create` | Copier.cpp:85-94 | a new blank instance with one lock, in the map before anything is copied into it |
| `CopierModel.Copier.Remembered` | Copier.cpp:70-82 | the clone made earlier is handed out with one more lock, also while it is still being filled |
| `CopierModel.Copier.CopyToInternal` | Copier.cpp:138-213 | into the destination or a clone of the same run: every persistent cell of the class chain and the custom container is copied, and no other cell of any object changes, unless a clone is destroyed on the way; fails, and stops, exactly if a persistent pointer is null in the source only |
| `CopierModel.Copier.CopyTable` | Copier.cpp:163-193 | one member table: exactly the persistent entries' cells are copied, up to the first pointer that is null in the source only |
| `CopierModel.Copier.CopyMember` | Copier.cpp:164-192 | entries that are not persistent or already equal are skipped, the others copied by their type; fails exactly for a pointer that is null in the source only |
| `CopierModel.Copier.CopyPointer` | BlueVariable.cpp:417-438 | the cell gets the clone of the source's target with a lock of its own, and what it held, this clone or an object of the destination's, loses one; a null source fails after the cell is cleared and what it held released |
| `CopierModel.Copier.AssignList` | include/BlueListUtil.h:507-549 | the destination list, whatever it holds, is emptied and becomes the clones of the items in order, each slot with its lock; where classes expose each container once, a clone is destroyed exactly when the list held its only locks |
| `CopierModel.Copier.AssignDict` | include/BlueDict.h:334-357 | the destination dictionary, whatever it holds, is cleared and gets the clone of every entry, taking over the reference it came with; a clone is destroyed exactly as for a list |
| `CopierModel.Copier.EmptyContainer` | include/BlueListUtil.h:514-517 | taking all items off destroys some clone if and only if the container held all its locks; otherwise the container is empty and, but for lock counts, nothing else changed |
| `CloneContents.PassedTrans` | Copier.cpp:138-213 | two groups of cells copied one after the other passed every emptying if each group did |
| `CopierModel.PointerHeldTwice` | BlueVariable.cpp:421-425 | when one cell is exposed by two members, releasing what it held before never destroys the clone just stored |
| `CloneTheorem.FinishedIsClone` | Copier.cpp:72-94 | a completed run from an empty map is a clone: bijection onto the new objects, commuting with every cell, source untouched, exact lock counts |
| `CloneTheorem.TakeCommutes` | Copier.cpp:138-213 | one step through a pointer, a list index or a dictionary key from a clone leads to the clone of where it leads from the original |
| `CloneTheorem.FollowCommutes` | Copier.cpp:138-213 | the same for paths of any length, with equal classes and values at their ends |
| `CloneTheorem.PathCloned` | Copier.cpp:138-213 | whatever a path of persistent cells leads to from a cloned object is cloned |
| `CloneTheorem.SameTarget` | Copier.cpp:138-213 | a block determines what a map from the cells of an object to its own does with the object's targets |
| `CloneTheorem.ReachedAreCloned` | Copier.cpp:138-213 | everything reachable from the root is in the map |
| `CloneTheorem.BijectionOf` | Copier.cpp:93-94 | no two originals share a clone, and every new object is the clone of one original |
| `CloneSteps.NewBlockPresent` | Copier.cpp:85 | a new instance has every cell its class describes, embedded objects included |
| `CloneSteps.CreatedKeeps` | Copier.cpp:85-94 | creating and remembering a clone keeps the invariant of the whole copy |
| `CloneSteps.HeldHasLock` | Copier.cpp:57-58 | a reference held during a copy always has a lock, so releasing one never drops the last |
| `CloneSteps.AccountedPtrStored` | BlueVariable.cpp:435 | storing a reference in a cell turns a held lock into a cell's lock; nothing is lost or counted twice |
| `CloneSteps.AccountedItemStored` | include/BlueListUtil.h:531 | the same for a list slot |
| `CloneSteps.AccountedItemAppended` | include/BlueDict.h:353-355 | the same for a dictionary entry |
| `CloneSteps.AccountedCreated` | Copier.cpp:85-94 | a new instance has one lock, which its creator holds |
| `CloneProgress.ProgressTrans` | Copier.cpp:151-193 | copying some cells and then others copies both and undoes neither |
| `CloneSteps.ClashKept` | BlueVariable.cpp:417-428 | copying some pointers neither mends nor causes a pointer that is null in the source only |
| `References.InDegreeWithPtr` | BlueVariable.cpp:435 | writing a pointer cell moves one reference from the old target to the new |
| `References.HoldersExactly` | BlueVariable.cpp:435 | a reference is counted for each pointer cell, list slot and dictionary entry that holds the object, and for nothing else |
| `References.OneSlotChanged` | BlueVariable.cpp:435 | changing what one slot holds changes the number of holders of the two objects concerned by one, and of no other |
| `Children.EnumerateChildren` | include/Find.h:66-137 | the loops over the class chain list exactly the edges of the graph, in order: attributes, list items and dictionary items; undefined exactly for an object with a dictionary that has fewer keys than items, where the lookup gets no key |
| `GraphEdges.EdgesInOrder` | include/Find.h:66-137 | the edges of an object are exactly those that the entries of its member tables and the slots of its containers give, link by link, members first, each once for its place: embedded objects and pointers that are not null under their entry's name, if persistence is not asked for or there, and items that are not null |
| `GraphEdges.EdgesExactly` | include/Find.h:66-137 | an edge is there if and only if some entry or slot of the class chain gives it |
| `GraphEdges.CastExactly` | Find.cpp:120-140 | a cast to a container interface finds the first one of the chain, or none if there is none |
| `GraphEdges.FieldsExactly` | include/Find.h:66-90 | the fields of a class are the entries of all tables of its chain |
| `GraphEdges.ListedExactly` | include/Find.h:119-134 | the children can be enumerated if and only if no dictionary of the chain has more items than keys |
| `Children.EdgesOk` | include/Find.h:66-137 | children are objects, and the objects embedded in one weigh less than it does: why searching through them ends |
| `Search.SeenObjectSet.Visit` | Find.cpp:20-43 | the hash buckets are a set: true exactly for an object not seen before |
| `Search.MatchesChain` | Find.cpp:147-156 | the loops over the chain and the classes asked for answer whether the object matches; what that means is `Search.MatchExactly` |
| `Search.MatchExactly` | Find.cpp:147-156 | an object matches if and only if the class at some link of its chain, however far up, is one of those asked for |
| `Records.SearchStep` | Find.cpp:203-243 | a search goes from an object to what the entries and slots of its chain give, unless the object matches and matches are pruned; the searches for references take entries that are not persistent too |
| `Search.FindSingle` | Find.cpp:193-246 | every result is of one of the classes or derived from one, and is reachable within the depth limit; without a limit, or if all ways to an object are equally long, every such object within the limit is found, pruned or not, and once if no pointer leads to an embedded object; it terminates; undefined only if it reaches a dictionary that misses a key within the limit, and in those cases exactly then |
| `Search.SoundProcessed` | Find.cpp:203-243 | what is on the stack is reachable in as many steps as its level says |
| `Search.CompleteProcessed` | Find.cpp:203-243 | what a processed object leads to is processed or waiting |
| `Search.OnceProcessed` | Find.cpp:203-243 | on a containment forest no object is processed twice although embedded ones bypass the seen set |
| `Search.ReachedProcessed` | Find.cpp:203-243 | when the stack is empty, every path from the root has been followed to its end |
| `Search.WeightProcessed` | Find.cpp:203-243 | processing an embedded object lowers the total weight of the entries that bypass the seen set |
| `FindReferences.FindReference` | Find.cpp:507-548 | true exactly when the pointers are equal, or the second is a canonical pointer to something reachable from the first; undefined only if a dictionary that misses a key can be reached |
| `FindReferences.FindAllReferences` | Find.cpp:551-599 | under each child exactly one record for each edge that leads to it from an object reachable from the root, each as the source makes it: parent and name, index, or key in the parent's first dictionary; undefined exactly if a dictionary that misses a key can be reached |
| `Records.RecordedExactly` | Find.cpp:176-190 | the record of an edge is the name of its member, the index of its item, or in an object with a dictionary the key that the first one has for the index, and nothing else |
| `Records.RecordResolves` | Find.cpp:176-190 | a record leads back to the child it is listed under and to nothing else: a name that is there once to the member's object, an index to the item of the first list, a key to its value in the first dictionary with good keys |
| `Records.IndexHasChild` | Find.cpp:176-190 | whatever the containers, an index record is the child's index in the list that has it |
| `FindReferences.AddRecords` | Find.cpp:577-596 | one object's edges are recorded under their children, in order |
| `FindReferences.AllRecordsCount` | Find.cpp:551-599 | the records of distinct parents count each record as often as its parent has edges recorded so |
| `FindReferences.CollectedAll` | Find.cpp:551-599 | the sweep has met every reachable object when it ends |
| `Routes.EnumerateRoutes` | Find.cpp:249-308 | each reported route is a simple path that meets the target only at its end, no hop to the target is reported twice, and the enumeration of all routes reports every hop to it from an object reachable without passing it; it terminates; undefined only if such an object has a dictionary that misses a key, and for all routes exactly then |
| `Records.RouteEdge` | Find.cpp:292-305 | routes are made of the edges that all entries and slots give, persistent or not |
| `Routes.LevelTest` | Find.cpp:269-276 | comparing the level of the top entry with the previous level tells processed from unprocessed entries |
| `Routes.CalledRoute` | Find.cpp:279-285 | at every call of the operation the chain of parent indices is a route |
| `Routes.AllCalled` | Find.cpp:249-308 | after the loop the operation was called for exactly the hops that lead to the target |
| `Routes.PopStep` | Find.cpp:270-275 | taking a processed entry off keeps the invariant |
| `Routes.CallStep` | Find.cpp:279-285 | a call of the operation keeps the invariant: the hop was never reported before |
| `Routes.RepeatStep` | Find.cpp:288-291 | an object met again keeps the invariant without being expanded |
| `Routes.PushStep` | Find.cpp:292-305 | expanding an object keeps the invariant |
| `Routes.BuildRoute` | Find.cpp:422-428 | walking the parent indices from the top of the stack yields the route |
| `RouteSteps.FindFirstRoute` | Find.cpp:400-433 | true exactly when the target is reachable; the result is the steps of a simple route to it, and replayed from the start they arrive at the target if each leg is an attribute or an item of the container that is looked in, by a good key if that is a dictionary; so always when the objects reachable from the start have one container each, lists without keys included; unless the enumeration gets stuck, undefined exactly if some leg is an item without a key in an object that casts to a dictionary |
| `RouteSteps.StepReplays` | Find.cpp:639-690 | a recorded step leads from its parent to its child: attributes always, items where the container is the one accessed, keys where they are distinct; such a step can always be recorded |
| `Records.StepExactly` | Find.cpp:120-140 | the step recorded for an edge is its member's offset from the object, its index, or in an object with a dictionary the key that the first one has for the index; none without a key |
| `Records.NextExactly` | Find.cpp:639-690 | a step leads to the cell at its offset, the item of the first list, or the value at the first such key of the first dictionary |
| `RouteSteps.ItemsReplayExactly` | Find.cpp:120-140 | the item steps recorded for a container lead back to the items, whatever it holds, if and only if it is the first dictionary of the class chain or, without one, the first list |
| `RouteSteps.ContainersExactly` | include/Find.h:91-137 | the containers of a class are those of all links of its chain |
| `RouteSteps.NotRecorded` | Find.cpp:120-140 | in a class chain with a dictionary and another container, an item of the other one may have no key to be recorded by: the program is undefined |
| `RouteSteps.StepsRecorded` | Find.cpp:418-431 | a route has its steps if and only if every leg that is an item of an object that casts to a dictionary has an index below the number of that dictionary's keys |
| `RouteSteps.RouteReplays` | Find.cpp:418-431 | replaying all steps of a route in order arrives at its end, if each of its legs can be replayed; other objects do not matter |
| `RouteSteps.PassedReached` | Find.cpp:418-431 | the object in which leg number i of a route starts is reachable in i steps |
| `RouteSteps.EdgesReplayable` | Find.cpp:120-140 | an object with one container, a list or a dictionary with good keys, has only legs that can be replayed |
| `RouteSteps.ReachesByHop` | Find.cpp:400-433 | the target is reachable if and only if some hop leads to it from an object reachable without passing it |
| `RouteSteps.FindUnique` | include/BlueDict.h:138-158 | the key at an index finds the entry at that index |
| `Validate.PyValidate` | BluePythonThunkers.cpp:175-200 | no report exactly when no cycle over members and list items can be reached; otherwise the name path of every lasso, each once; what the names say is `Reports.ReportReadsBack` |
| `Validate.Validator.Rec` | BluePythonThunkers.cpp:101-173 | appends one report per lasso below the object in the order of the walk, restores ancestors and names, and terminates |
| `Validate.EnumerateKids` | BluePythonThunkers.cpp:120-172 | the members of the whole chain first, then the items of the list, each with its name |
| `Reports.KidsInOrder` | BluePythonThunkers.cpp:120-172 | the children are exactly the members of all tables of the chain that are not null, under their names, and the items of the first list that are not null, under their indices in brackets, in order and each once for its place |
| `Reports.NumeralExactly` | BluePythonThunkers.cpp:165-166 | the digits of an index are its one decimal numeral: most significant digit first, no leading zero |
| `Reports.ReportReadsBack` | BluePythonThunkers.cpp:105-130 | a report, split at its dots, names the way along its lasso from the operand on, each name leading to the next object by a member or list item; where names differ, that way and no other |
| `Reports.NamedIsWalk` | BluePythonThunkers.cpp:101-173 | whatever path names lead along is that of a walk |
| `Reports.CycleIsNamed` | BluePythonThunkers.cpp:101-173 | a cycle can be reached if and only if members and list items lead from the object through some object twice |
| `Validate.NameFitsExactly` | BluePythonThunkers.cpp:165-166 | the bracketed index of a list item fits the ten characters it is formatted into if and only if it is below 10000000 |
| `Validate.LassoStep` | BluePythonThunkers.cpp:101-173 | a lasso is one step and a lasso below the child, with the object among the ancestors |
| `Validate.LassoIffCycle` | BluePythonThunkers.cpp:101-173 | there is a lasso if and only if a cycle can be reached |
| `Validate.RepetitionHasLasso` | BluePythonThunkers.cpp:101-173 | every walk that repeats an object contains a lasso |
| `WeakRefs.Run` | include/BlueWeakRef.h:117-135 | in every run each object is destroyed at most once, exactly those without locks are, and a weak reference holds an object exactly when it is registered at it, which is never a destroyed one; the run consists of the allowed steps: every action of the script is carried out when it can be, an object that loses its last lock is notified under a temporary lock until no registration is left, each being told, and destroyed unless it was locked again, and code outside runs to its return where it is called |
| `WeakRefs.OwnedCounted` | include/BlueWeakRef.h:117-135 | along the steps of a run clients own the locks they started with and took, less those they dropped |
| `WeakRefs.World.Unlock` | include/BlueWeakRef.h:117-135 | with other locks: one less and nothing else; the last lock: afterwards nothing is registered, and the object was locked again or destroyed, at once if nothing was registered |
| `WeakRefs.World.NotifyWeakRefs` | include/BlueWeakRef.h:26-38 | tells and removes every registration, also those added meanwhile; none is left |
| `WeakRefs.World.NotifyLocked` | include/BlueWeakRef.h:123-131 | a round of notification under a temporary lock leaves the invariant, and no lock exactly when nobody locked the object again |
| `WeakRefs.World.Destroy` | include/BlueWeakRef.h:132-135 | runs only without locks and registrations, and is recorded once |
| `WeakRefs.World.Assign` | include/BlueSmartPtr.h:456-476 | the weak reference lets go of what it held and holds the target; locks and everything else are as before |
| `WeakRefs.World.WeakRefRegister` | include/BlueWeakRef.h:40-43 | one registration more |
| `WeakRefs.World.WeakRefUnregister` | include/BlueWeakRef.h:45-57 | the first registration is erased, or none if there is none |
| `WeakRefs.World.RunCallback` | include/BlueTypes.h:521-531 | any code outside keeps the invariant and balances its notifications |
| `WeakRefs.NoDangling` | include/BlueSmartPtr.h:450-476 | whatever a weak reference holds is alive |
| `WeakRefs.Forgotten` | include/BlueSmartPtr.h:450-453 | no weak reference holds an object at which none is registered |
| `WeakRefs.PoppedKeeps` | include/BlueWeakRef.h:31-36 | a notified weak reference has forgotten its object: holding and being registered stay the same thing |
| `WeakRefs.AssignedKeeps` | include/BlueSmartPtr.h:456-476 | assignment keeps holding and being registered the same thing |
| `WeakRefs.ErasedCount` | include/BlueWeakRef.h:45-57 | erasing takes away one registration of that reference and none of another |
| `PendingDeletes.Run` | BlueClasses.cpp:518-561 | for every sequence of releases and frames: the objects freed are the least set closed under having all locks released, each freed once |
| `PendingDeletes.DeferredAsImmediate` | BlueClasses.cpp:730-750 | deferring deletions frees exactly what deleting immediately frees, for every clock and setting |
| `PendingDeletes.BlueClasses.ProcessPendingDeletes` | BlueClasses.cpp:518-547 | terminates for every clock; the queue is then empty or shorter than the maximum with the time used up; without a time limit it is empty; when everything is deferred, objects are freed in queue order |
| `PendingDeletes.BlueClasses.ProcessAllPendingDeletes` | BlueClasses.cpp:549-561 | empties the queue, also of what deletions add; everything abandoned is then freed, once |
| `PendingDeletes.BlueClasses.FinalDelete` | include/BlueTypes.h:505-510 | the destructor releases every reference held, which may delete or queue others; then the object is freed (`RootRefLock`, include/BlueClass.h, lines 157 to 163) |
| `PendingDeletes.BlueClasses.Destroy` | BlueClasses.cpp:730-750 | an object without locks is queued exactly if its class and the settings defer, and else deleted at once (`RootRefLock`, include/BlueClass.h, lines 147 to 155) |
| `PendingDeletes.BlueClasses.AddPendingDelete` | BlueClasses.cpp:730-750 | queues at the end exactly when deferral is enabled and on the main thread |
| `PendingDeletes.BlueClasses.Unlock` | include/BlueTypes.h:493-497 | a released lock is counted, and the last one destroys, as `RootRefLock` implements it in include/BlueClass.h, lines 91 to 99 |
| `PendingDeletes.QuietIsLeast` | BlueClasses.cpp:549-561 | with an empty queue and no deletion under way, the deleted objects are the least closed set |
| `PendingDeletes.Release` | BlueClasses.cpp:549-561 | an object that loses its last lock is in every closed set: nothing is deleted without need |
| `PendingDeletes.ReleasedFrom` | include/BlueTypes.h:505-510 | objects deleted completely have released exactly what they held |
| `WrapperPool.Run` | BluePyWrap.cpp:101-187 | a run goes to its end if and only if no destroy handler wraps the object it is run for; then one live wrapper per object at most, found by the index and by the lock data, one lock per live wrapper, and a bounded pool apart from the live wrappers; otherwise the first such teardown has touched freed memory or broken the invariant; the run consists of the allowed steps: every action is carried out when it can be, and a teardown runs its handler, takes the wrapper out, releases its lock, runs the callbacks and keeps or deletes the wrapper, in this order |
| `WrapperPool.Pool.Create` | BluePyWrap.cpp:131-187 | the object's wrapper with one more reference, also while it is being torn down, or a new one from the pool with one lock on the object; the assertion about lock data is never violated |
| `WrapperPool.Pool.PyDestroy` | BluePyWrap.cpp:524-545 | the last Python reference runs the destroy handler while the wrapper is still indexed, so that the handler can wrap the object again and drop that reference; if it has done so the run fails there, otherwise the wrapper leaves index and lock data, its lock is released and it is returned, whatever handler and callbacks do |
| `WrapperPool.TornDownExactly` | BluePyWrap.cpp:524-545 | the second half of a teardown keeps the invariant if and only if the wrapper was not handed out since the teardown began; a handler that handed it out and dropped it again is no better than one that kept it |
| `WrapperPool.TeardownExactly` | BluePyWrap.cpp:524-545 | whatever the handler of a teardown does, the teardown keeps the invariant if and only if the handler has not wrapped the object |
| `WrapperPool.KeptReference` | BluePyWrap.cpp:131-139 | a handler that wraps its object and keeps the reference: the pool gets a wrapper that Python still uses |
| `WrapperPool.DroppedReference` | BluePyWrap.cpp:524-545 | a handler that wraps its object and drops the reference: the wrapper is torn down within the handler and then once more, which leaves no reference, one lock too few and the wrapper in the pool twice |
| `WrapperPool.Pool.GetWrapper` | BluePyWrap.cpp:101-113 | the last wrapper of the pool, or a new one when it is empty |
| `WrapperPool.Pool.ReturnWrapper` | BluePyWrap.cpp:115-121 | into the pool while there is room, else deleted; callbacks run before the room is looked at |
| `WrapperPool.Pool.FlushWrappers` | BluePyWrap.cpp:123-129 | the pool is empty and its wrappers are gone |
| `WrapperPool.Pool.Destroy` | BlueClasses.cpp:708-725 | when an object is freed it has no wrapper, so the error branch for one is never reached |
| `WrapperPool.OneWrapper` | BluePyWrap.cpp:131-187 | two live wrappers of one object are the same, and no live wrapper is in the pool |
| `WrapperPool.DyingUnwrapped` | BlueClasses.cpp:708-725 | an object being destroyed, and whatever is embedded in it, has no wrapper |
| `WrapperPool.WrappedLives` | BluePyWrap.cpp:131-187 | a wrapped object has a lock besides its clients' |
| `WrapperPool.WrappedKeeps` | BluePyWrap.cpp:140-177 | a newly wrapped object keeps the invariant |
| `WrapperPool.UnwrappedKeeps` | BluePyWrap.cpp:538-544 | taking a wrapper down keeps the invariant, its lock still to be released |
| `SmartPtrs.BluePtr.Assign` | include/BlueSmartPtr.h:119-133 | the locks follow the pointer, and the object assigned survives even if the pointer held its only lock |
| `SmartPtrs.BluePtr.CastAssign` | include/BlueSmartPtr.h:345-362 | the object if it has the interface, else null; the locks follow |
| `SmartPtrs.BluePtr.CopyAssign` | include/BlueSmartPtr.h:136-140 | the same for another pointer, also for itself |
| `SmartPtrs.BluePtr.MoveAssign` | include/BlueSmartPtr.h:142-151 | takes over the pointer and leaves the other null; locks are not touched |
| `SmartPtrs.BluePtr.Attach` | include/BlueSmartPtr.h:212-216 | takes over a lock of the caller's and releases its own |
| `SmartPtrs.BluePtr.Unlock` | include/BlueSmartPtr.h:200-209 | null, and the lock released |
| `SmartPtrs.MoveBalance` | include/BlueSmartPtr.h:142-151 | a move keeps the locks right if and only if the pointer was null or held the same object |
| `HalfFloat.Float32To16` | BlueStructureList.cpp:559-652 | the loops and bit operations compute `Encode` and terminate for every finite input, infinities and not-a-numbers |
| `HalfFloat.Round` | BlueStructureList.cpp:603-648 | from the normalised input, the code of its magnitude, over carry, overflow, subnormals and underflow |
| `HalfFloat.DecodedUnits` | BlueStructureList.cpp:530-557 | the decoder's powers of two give `Units` of the magnitude bits |
| `HalfFloat.DecodedValues` | BlueStructureList.cpp:530-557 | 0x3c00 is 1, 0xc000 is -2, 0x7bff is 65504 and 0x7c00 is 65536 |
| `HalfFloat.DecodedSmall` | BlueStructureList.cpp:530-557 | 0x0000 and 0x8000 are the two zeros, 0x0001 is 2^-24 |
| `HalfFloat.Specials` | BlueStructureList.cpp:566-574 | infinities and not-a-numbers become 0x7fff or 0xffff, which decode to not-a-numbers |
| `HalfFloat.EncodeMonotone` | BlueStructureList.cpp:559-652 | a larger magnitude never gets a smaller code, over zero, subnormals, normals and overflow |
| `HalfFloat.DecodeIncreases` | BlueStructureList.cpp:530-557 | decoding is strictly monotone in the magnitude bits |
| `HalfFloat.DecodeEncode` | BlueStructureList.cpp:530-652 | encoding a decoded code gives it back, for every code but the two special ones, signed zeros included |
| `HalfFloat.EncodeStable` | BlueStructureList.cpp:559-652 | encoding, decoding and encoding again changes nothing |
| `HalfFloat.NormalNearest` | BlueStructureList.cpp:603-613 | normal magnitudes get the nearest half, ties to even |
| `HalfFloat.NormalError` | BlueStructureList.cpp:603-613 | normal magnitudes move by at most half the spacing |
| `HalfFloat.SubnormalRounding` | BlueStructureList.cpp:631-643 | subnormals are rounded to nearest, ties to even, if and only if no bits are lost below a tie with an even integer part; then they are one too low |
| `HalfFloat.SubnormalError` | BlueStructureList.cpp:631-643 | subnormals move by less than 1/2 + 2^-13 of the spacing |
| `HalfFloat.CodeNearest` | BlueStructureList.cpp:559-652 | the code is the nearest one, ties to even, if and only if the input is normal or no tie is lost |
| `HalfFloat.EncodeNearest` | BlueStructureList.cpp:559-652 | decoding the code gives the half nearest to the input, wherever no tie is lost |
| `HalfFloat.TieLostExample` | BlueStructureList.cpp:633-643 | a value just above half a unit that encodes as zero although one unit is nearer |
| `HalfFloat.Overflow` | BlueStructureList.cpp:609-619 | finite inputs encode to the special code exactly above 130976 |
| `Structures.RoundTrip` | BlueStructureList.cpp:352-499 | for every definition with members that fit and do not overlap, a tuple written reads back as itself, floats rounded to their formats |
| `Structures.WriteSucceeds` | BlueStructureList.cpp:396-499 | a write succeeds exactly on tuples of the right shape with every value of its member's type and range |
| `Structures.WriteFrame` | BlueStructureList.cpp:396-499 | no byte outside the members changes, also when the write fails half way |
| `Structures.StoredExactly` | BlueStructureList.cpp:247-264 | integers in range, booleans and representable floats are stored exactly |
| `Structures.DataTypeParts` | include/IBlueStructureList.h:15-51 | a data type is its type, plus 8 if unsigned, plus 32 times its size less one |
| `Structures.Widths` | BlueStructureList.cpp:136-187 | 8-bit integers and booleans take one byte, 16-bit integers and halves two, 32-bit integers and floats four, vectors sixteen |
| `Structures.IntegerStored` | BlueStructureList.cpp:246-254 | an integer is stored exactly if it is in the range of long and of its type, as its little endian two's complement; booleans count as 0 and 1; the error tells range from type |
| `Structures.IntegerRead` | BlueStructureList.cpp:136-167 | the bytes are read back as that number |
| `Structures.FloatStored` | BlueStructureList.cpp:256-264 | halves and floats are the little endian bytes of their codes; above 2^128 - 2^104 floats are refused |
| `Structures.HalfRead` | BlueStructureList.cpp:109-112 | two bytes are read as the half they encode |
| `Structures.SingleRead` | BlueStructureList.cpp:173-175 | four bytes are read as the float they encode |
| `Structures.BoolStored` | BlueStructureList.cpp:144-152 | booleans are the bytes 1 and 0, and nothing else is a boolean; any byte but 0 reads as true |
| `Structures.VectorStored` | BlueStructureList.cpp:128-143 | the four floats of a vector one after the other, without a range check |
| `Structures.WrittenBytes` | BlueStructureList.cpp:276-306 | after a write the bytes of each component are at its member's offset, behind the components before it |
| `Structures.ComponentRoundTrip` | BlueStructureList.cpp:276-306 | a component reads back as stored, for every data type |
| `Structures.PyObjectToStructure` | BlueStructureList.cpp:396-499 | the loops over members write what `WriteStructure` says and stop at the first value that does not convert |
| `Structures.ExtractItem` | BlueStructureList.cpp:276-306 | the components of a member are converted and written one after the other |
| `Structures.StructurePyObject` | BlueStructureList.cpp:352-394 | a tuple of the members' values, or the value of a single member |
| `Structures.GetStructureElement` | BlueStructureList.cpp:81-107 | a tuple of the components of a member, or the value of a single component |
| `Structures.StructureList.PyAppend` | include/BlueStructureList.h:264-287 | the list grows by an item that reads back as the value, exactly when the value converts; otherwise nothing changes and nothing is sent |
| `Structures.StructureList.PyInsert` | include/BlueStructureList.h:289-322 | the same at an index, clamped to the end; a negative index means the end of a list that is not empty if the length divides 2^64 plus the index, and is undefined exactly otherwise |
| `Structures.StructureList.PyRemoveAt` | include/BlueStructureList.h:324-345 | removes an item, or refuses an index out of range |
| `Structures.StructureList.Append` | include/BlueStructureList.h:128-134 | an observer applying the event has the new list |
| `BlueLists.BlueList.Insert` | include/BlueListUtil.h:552-591 | refuses null, keys out of range and other types; -1 appends; the slot has a lock, and the observer applying the event has the new list |
| `BlueLists.BlueList.Append` | include/BlueListUtil.h:594-618 | the event carries the key one past the slot, so an observer must clamp it |
| `BlueLists.BlueList.Remove` | include/BlueListUtil.h:621-667 | one item, or all for -1, with their locks; the observer follows |
| `BlueLists.BlueList.GetAt` | include/BlueListUtil.h:670-678 | the item; -1 passes the range check and throws |
| `BlueLists.BlueList.FindKey` | include/BlueListUtil.h:681-711 | the first place at or after the start, or -1 exactly when there is none; undefined exactly from -1, which passes the range check |
| `BlueLists.BlueList.Swap` | include/BlueListUtil.h:714-736 | exchanges two items; -1 throws without a change |
| `BlueLists.BlueList.Move` | include/BlueListUtil.h:739-768 | the shifting loops remove the item and insert it at the target; a move to -1 throws with the first item doubled and the moved one lost |
| `BlueLists.DoubledBalance` | include/BlueListUtil.h:752-762 | after a move that ran off the front the locks are right if and only if the moved item was the first one's equal |
| `BlueLists.ReplayMore` | include/BlueListUtil.h:552-768 | replaying events in two portions is replaying them all |
| `BlueLists.AssignSlice` | BluePyWrap.cpp:1435-1505 | items[..low] + source + items[high..] after clamping, on both removal paths, for a source that holds its elements itself; an element that is no object of the type stops it there; locks and observer follow |
| `BlueLists.ClampIsNearest` | BluePyWrap.cpp:1435-1505 | slice bounds are moved to the nearest place of the list |
| `BlueLists.AssignSliceSelf` | BluePyWrap.cpp:1435-1505 | a slice assigned from its own list gets what is then read from the list that is changing; replacing the whole list empties it; locks and observer follow |
| `BlueLists.SelfSliceExactly` | BluePyWrap.cpp:1435-1505 | that is what a copy of the list would give if and only if the list repeats the items before the slice, or without any consists of the item behind it |
| `BlueLists.Fremove` | BluePythonThunkers.cpp:480-513 | one occurrence goes, the last item takes its place; true exactly when there was one |
| `BlueDicts.BlueDict.AssignSubscript` | include/BlueDict.h:109-136 | sets or deletes one entry, locks follow, the key cache is dropped; where destroying an object releases no lock the ledger counts, undefined exactly when a missing key is deleted, or an entry is assigned the value it holds the only lock of, which is then destroyed |
| `BlueDicts.SurvivesRelease` | include/BlueDict.h:117-130 | where destructors release nothing, the new value outlives the release of the old one if and only if it is not the old one with its only lock |
| `BlueDicts.BlueDict.Clear` | include/BlueDict.h:67-76 | no entries, every lock released, the key cache dropped |
| `BlueDicts.BlueDict.GetKey` | include/BlueDict.h:138-158 | a cache that is built lists every key once; one that is there is kept and answers exactly its own indices; all indices below the length have a key if and only if the cache was complete before |
| `BlueDicts.BlueDict.PyItems` | include/BlueDict.h:211-234 | every entry once; the assertion that each index has a key is violated if and only if the key cache misses a key |
| `BlueDicts.BlueDict.EnumerateItems` | include/Find.h:122-134 | counting through the keys and looking each up gives every entry once, and is undefined if and only if the key cache misses a key |
| `BlueDicts.BlueDict.Insert` | include/BlueDict.h:83-86 | an entry that is there stays and the caller keeps its lock; a new one takes the lock over; the key cache is left alone and stays complete if and only if it was, and was not in use or the key was there |
| `BlueDicts.KeyAfterInsert` | include/BlueDict.h:83-86 | after counting through the keys and inserting one, the last index has a key if and only if the cache was complete and the key was not new |
| `BlueDicts.BlueDict.KeysAreSubscripts` | include/BlueDict.h:97-107 | looking up by key finds exactly the keys that counting through a complete cache finds, each at one index |
| `BlueDicts.BlueDict.CompleteBySize` | include/BlueDict.h:138-158 | a key cache misses no key if and only if it is as long as the dictionary |
| `Containers.Run` | include/BlueListUtil.h:552-768 | over any run on any number of lists and dictionaries, key lookups, insertions and slices of a list's own items included, every lock count is the outside holders plus slots plus entries, every observer's replay is its list, and each operation has done exactly its work on its own container |
| `Containers.ListKeeps` | include/BlueListUtil.h:552-768 | a list operation that balances its own slots keeps the law for all containers |
| `Containers.DictKeeps` | include/BlueDict.h:109-136 | the same for a dictionary |
| `Containers.InsertKeeps` | include/BlueDict.h:83-86 | an inserted entry takes over a lock from its client: the law holds with one outside holder less |
| `Ledgers.CountExactly` | include/BlueListUtil.h:552-768 | slots are counted one by one |
| `MemberIterator.Collect` | BlueMemberIterator.cpp:59-118 | iterating visits exactly the entries of all tables of the class chain that are persistent, in order, each once, with the sum of the parent offsets |
| `MemberIterator.BlueMemberIterator.Reset` | BlueMemberIterator.cpp:59-74 | to the first wanted entry of the class the iterator has got to, at offset 0; only for a fresh iterator is that the whole chain |
| `MemberIterator.BlueMemberIterator.Next` | BlueMemberIterator.cpp:77-97 | drops that many wanted entries; true exactly when one is left |
| `MemberIterator.BlueMemberIterator.NextParent` | BlueMemberIterator.cpp:100-118 | to the next table that is not empty, or the end, losing no entry |
| `MemberIterator.WantedExactly` | BlueMemberIterator.cpp:151-176 | exactly the wanted entries are kept, none more often than it is there |
| `MemberIterator.WantedSplits` | BlueMemberIterator.cpp:77-118 | the wanted entries of a chain are those of its parts one after the other: order is kept |
| `MemberIterator.CopierSeesTheSame` | Copier.cpp:151-169 | the cells a copy considers are those of the entries the iterator visits |

## Left out

- CopierModel.CloneTo: what the program does after a clone was destroyed is not modelled; it is undefined, because the map hands the clone out again.
- CopyInto.CopyInto: destinations as for `CopierModel.Copier.CopyTo`, and not embedded in another object; what the cells hold that come after the one at which a copy failed is stated for no other object than the clones.
- CopierModel.Copier.CopyTo: a destination that exists already refers to objects of its own side only, which the source does not reach; the copier skips a pointer that is equal in both, so that its target would stay shared, and what destructors on the destination's side do is not modelled.
- CopierModel.Copier.CopyToInternal: the destination is, or is embedded in, a clone of the same run or the destination of the whole copy; its containers may hold clones already and its pointer cells the clone they are to hold, as happens for cells under two names.
- CopierModel.Copier.CopyTable: destinations as for `CopyToInternal`.
- CopierModel.Copier.CopyMember: destinations as for `CopyToInternal`; embedded objects are copied without comparing their raw bytes first, so that none is skipped.
- CopierModel.Copier.CopyPointer: destinations as for `CopyToInternal`.
- Search.FindSingle: with a depth limit, where ways of different length lead to an object, only soundness is stated, because an object met first at the limit is not expanded when it is met again nearer.
- RouteSteps.FindFirstRoute: that the replay arrives is stated for routes whose item legs are in the container that is looked in, with good keys; `RouteSteps.ItemsReplayExactly` says why the first is needed, and two entries with one key cannot be told apart by it. What the program does where it is undefined is not modelled, only when that is.
- RouteSteps.StepReplays: the check that the recorded class still is in the parent's chain is not modelled; objects do not change their class.
- Validate.EnumerateKids: names of list items have any length; the source's buffer holds them up to index 9999999, as `Validate.NameFitsExactly` says.
- BlueDicts.BlueDict.AssignSubscript: what the program does in its two undefined cases is not modelled, only which they are; nor is a new value whose only lock the old value holds, which the release destroys, because destructors in the ledger release nothing.
- BlueLists.AssignSlice: a source sequence that is not the list holds its elements, as Python sequences and other lists do.
- Structures.StructureList.PyInsert: sizes have 64 bits, and what the program does where it is undefined is not modelled, only when that is.
- Structures.Convert: shared strings are not modelled, because they are pointers into a string table; the unreachable answer for unknown data types is not modelled either.
- SmartPtrs.BluePtr.MoveAssign: the leak of what the pointer held is modelled, not prevented.
- WeakRefs.World.WeakRefRegister: other reference policies, for objects without or with delegated locks, are not modelled.
- Copy overrides, post-copy callbacks, `Initialize` and `OnModified` are arbitrary code and taken to be absent; so are the copy of Python decorations, failing creations, and failing copies but for null pointers.
- The values of a clone's cells that are not persistent are those its class gives them; the model says only that it refers to nothing from there.
- The copier's heap is one field that its methods update; the short-lived locks of local smart pointers are elided where they are released in the same statement.
- The order of keys in a cloned dictionary is that of the source; the source's hash map may choose another.
- Observers and destructors do not change a container while it is working, and destructors in the containers' ledger run no code.
- Tracebacks and type counts of `BlueWrapper` are foreign code; of the handler for the last Python reference only what it can do to wrappers, references and locks is modelled.
- Narrowing doubles to single precision and the range of `long` are parameters of the structure model; payloads of not-a-numbers are not modelled.
- `FindInterface`, `PyFindRoutes` variants that only format results, `Pyreverse`, sequence repetition and item assignment by index.
- The Python interface itself, argument parsing, class registration, type information, logging, the timer, threads and the allocator.
- String interning, which is right only under a hash without collisions.

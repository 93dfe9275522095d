# Verified model of libdw-bcc

libdw-bcc lets libunwind unwind the stack of a traced process from a snapshot: it keeps an
index of the process (its threads, address ranges, DSO files and cached file pages) and
answers memory reads from the snapshot or from the files.  Everything in that index sits on
one intrusive red-black tree and one intrusive circular list.

The project models that core in Dafny and proves its promises.  `dafny verify
dfyconfig.toml` checks all of it.

- **The tree** (`Rb*.dfy`).  Nodes are heap objects with left, right and parent links, a
  colour and an augmented value.  A snapshot of all links (`View`) is related to an
  inductive tree, and a zipper (`Ctx`) describes the position of the bottom-up loops.  The
  methods perform the assignments of src/rbtree.c and src/rbtree_augmented.h one by one;
  each states the resulting snapshot, and lemmas on values say which tree that snapshot
  stores.  `Root.Valid` is the whole invariant: links, black root, no red-red edge, equal
  black heights.  Insertion and erasure are proved through every case and on both sides,
  with the augmented values and the number of rotations.
- **The page cache** (`PageCache`), with the loop of `cached_read` over the tree, and the
  page-load protocol of several concurrent readers as a state machine (`PageRace`).
- **Address ranges** (`Intervals`, `Maps`, `Events`): the interval search, for every shape
  of the tree, with the exact condition under which it is complete; insertion, purge, the
  loader of `/proc` lines and the walk over them.
- **Registries**: `DsoRegistry` (names), `Registry` and `Machine` (256 buckets with a cache,
  the recursive creation of leaders, the threads' counts and the dead lists).
- **Lifetimes** (`Counts`, `Drops`, `Groups`, `Growth`, `Endings`, `Lifetimes`, `Runs`): the
  counts of threads, address spaces, maps and DSOs with the trees and lists they are on.
  `Counts` has the state, its invariant and the elementary steps, `Lifetimes` the operations
  that change it, and `Runs` whole runs of calls.  Here a request may also name a tid with
  another tgid than before, as `machine__update_thread_tgid` provides for.
- **`Session`**: registry, address spaces and loader together.
- **The unwind oracle** (`EhFrame`, `Unwind`): encoded pointers, the table of a file, and
  `access_mem` over ranges, page cache and snapshot together.
- **Circular lists** (`Lists`), and sequences as lists (`Seqs`).

Several predicates are written as a quantifier over the one-element type `Seal`; this only
keeps the verifier from unfolding them at every heap update, and a lemma opens each of them.

Findings.  Where the code does not meet a property, the model keeps the code and states
exactly when it does:

- `cached_read` releases a page that is in the tree if and only if the request is empty or
  starts at the end of a file that ends inside a page, and that page is not cached
  (`CachedRead`, `BoundaryRead`).
- `maps__find` can miss a range when ranges are nested (`NestedIsMissed`).  In the tree it is
  given it succeeds if and only if some range that contains ip does not lie in the left
  subtree of a range that starts and ends at or before ip (`FindExact`).  That there is no
  such range earlier in the order suffices for every shape of the tree (`FindComplete`), but
  is not necessary for red-black trees (`ShadowedYetFound`).
- The length of the unwind table is wrong exactly from 2^61 entries on (`FindProcInfo`); a
  header of 20 bytes that says so is in `HugeCount`.
- The word that ends exactly at the end of the stack snapshot is not served from it
  (`AccessMem`, `LastWordRefused`).
- `list_cut_position` leaves its target list untouched when the source list is empty,
  although its comment promises the moved part there (`ListCutPosition`, `CutOfEmpty`).
- `maps__put` deletes an address space with a map still on its list if and only if somebody
  holds a map of its tree (`MapsPut`, `HeldMapHangs`).  The library's own calls never do
  (`Run`).
- `machine__delete` deletes the dead lists with a thread on them if and only if a thread is
  held (`Teardown`, `LateHandle`).
- When a registered tid is named with another tgid, not its own, `machine__update_thread_tgid`
  keeps a reference to the leader, which is then never freed, if and only if the thread shares
  the leader's address space already (`FindNew`, `LeaderLeaks`), and fails its assertion if and
  only if it does not and its own address space is not empty (`FindNew`, `MoveFails`).

## Model

| member | source | states |
|---|---|---|
| `RbHeap.Root.constructor` | src/rbtree.h:50-50 | an empty root is a valid red-black tree, and an augmented one if the fold is lawful |
| `RbHeap.Root.SetParentColor` | src/rbtree_augmented.h:116-120 | exactly the parent and the colour of that one node change in the snapshot of all nodes |
| `RbHeap.Root.SetParent` | src/rbtree_augmented.h:111-114 | exactly the parent of that one node changes |
| `RbHeap.Root.ChangeChild` | src/rbtree_augmented.h:122-133 | the parent's link to the old node, or the root pointer, becomes the new node, and nothing else changes |
| `RbHeap.Root.RotateSetParents` | src/rbtree.c:61-69 | the new top node takes over parent and colour, the old one hangs below it with the given colour, all in terms of one snapshot |
| `RbHeap.Root.AugmentRotate` | src/rbtree_augmented.h:86-93 | counts a rotation; the rotate callback copies the old top's value and recomputes the old top from its children |
| `RbLinks.SpinWired` | src/rbtree.c:151-156 | after the assignments of a single rotation the child links, parent links and colours store the rotated tree, without sharing a node |
| `RbLinks.TwistWired` | src/rbtree.c:131-156 | the same for a double rotation |
| `RbSteps.TurnWired` | src/rbtree.c:142-156 | the insertion's rotation writes what the rotated tree needs, on either side |
| `RbSteps.TurnKeepWired` | src/rbtree.c:287-306 | the erasure's rotation at the parent, which keeps one colour, does so too |
| `RbSteps.BendWired` | src/rbtree.c:117-156 | insertion Cases 2 and 3 together store the doubly rotated tree |
| `RbSteps.KinkWired` | src/rbtree.c:265-306 | erasure Cases 3 and 4 together store the doubly rotated tree, although parent links are wrong in between |
| `RbSteps.FlipWired` | src/rbtree.c:95-114 | the colour flip stores the repainted tree |
| `RbCases.SpinInorder` | src/rbtree.c:142-156 | a rotation does not change the in-order sequence |
| `RbCases.TwistInorder` | src/rbtree.c:265-306 | nor does a double rotation |
| `RbCases.InsertFlip` | src/rbtree.c:95-114 | after a colour flip the only possible red-red edge is two levels higher and all black heights are kept |
| `RbCases.InsertSpin` | src/rbtree.c:142-157 | the single rotation ends the repair with a red-black tree |
| `RbCases.InsertTwist` | src/rbtree.c:117-157 | the double rotation does, too |
| `RbCases.EraseCase1` | src/rbtree.c:216-233 | rotating a red sibling up leaves the same lack of one black node below a red parent |
| `RbCases.EraseCase2` | src/rbtree.c:237-264 | repainting the sibling moves the lack one level up, or ends it at a red parent |
| `RbCases.EraseCase4` | src/rbtree.c:287-307 | the outer rotation ends the repair with a red-black tree |
| `RbCases.EraseCase34` | src/rbtree.c:265-307 | the inner and outer rotations together do |
| `RbAugment.ConsistentIsFold` | src/rbtree_augmented.h:65-93 | values that agree with the children's at every node are the folds of the in-order subtrees, for any associative operation with unit |
| `RbAugment.SpinUpkept` | src/rbtree_augmented.h:86-93 | the rotate callback restores every stored value after a rotation |
| `RbPropagate.StopEarly` | src/rbtree_augmented.h:67-78 | stopping at the first unchanged value is safe: everything above is up to date already |
| `RbErase.Propagate` | src/rbtree_augmented.h:67-78 | from any node the walk up to `stop` makes every stored value of the tree consistent again, and writes nothing but values of nodes on that path |
| `RbErase.FindSuccessor` | src/rbtree_augmented.h:201-205 | the do-while search ends at the leftmost node of the right subtree and its parent |
| `RbErase.Unlink` | src/rbtree_augmented.h:138-233 | in all cases (no child, one child, successor is the right child, successor is deeper) the tree without the node is stored, in the old order, with consistent values; it is red-black, or lacks one black node exactly below the node returned for rebalancing |
| `RbInsert.InsertStep` | src/rbtree.c:77-192 | one round of the loop either ends with a red-black tree after at most two rotations (calls of the rotate callback, counted in the root), or moves the red node two levels up without one |
| `RbInsert.InsertFix` | src/rbtree.c:71-194 | from any red leaf in a red-black tree the loop ends with a red-black tree over the same nodes in the same order, values kept, at most two rotations |
| `RbEraseColor.EraseStep` | src/rbtree.c:206-359 | one round either ends with a red-black tree, after at most three rotations, or moves the missing black node one level up without one |
| `RbEraseColor.EraseFix` | src/rbtree.c:200-360 | from any tree that lacks one black node the loop ends with a red-black tree over the same nodes in the same order, values kept, at most three rotations |
| `RbTree.LinkNode` | src/rbtree.h:80-87 | the new node is a red leaf at the given place, with the order before + node + after, and nothing else moves |
| `RbTree.InsertColor` | src/rbtree.c:384-387 | linking a red leaf anywhere and calling this gives a valid red-black tree with the linked order unchanged; stored folds stay folds; at most two rotations |
| `RbTree.LinkInsert` | src/map.c:185-186 | the pair of calls every user of the tree makes: valid afterwards, the node exactly at the place of the descent |
| `RbTree.InsertAugmented` | src/rbtree_augmented.h:48-63 | linking, propagating from the new leaf and recolouring keep every stored value the fold of its subtree, at any place of any valid tree |
| `RbTree.Erase` | src/rbtree.c:389-395 | erasing any node of any valid tree leaves a valid tree whose order is the old one minus exactly that node; stored folds stay folds; at most three rotations |
| `RbTree.EraseInit` | src/rbtree.h:100-104 | the same, and the node is marked as being in no tree |
| `RbTree.AugmentedIsFold` | src/rbtree_augmented.h:65-93 | in an augmented tree every node's stored value is the fold of the in-order sequence of its own subtree |
| `RbReplace.ReplaceNode` | src/rbtree.c:496-510 | the new node stands exactly where the old one stood: same order otherwise, still a valid red-black tree |
| `RbHeight.HeightBound` | src/rbtree.c:36-39 | two to the height of a red-black tree of n nodes is at most (n+1) squared, that is, the height is at most 2*log2(n+1) |
| `RbHeight.RbBounds` | src/rbtree.c:26-39 | a path has at most twice as many nodes as black ones, and a black height h needs 2^h - 1 nodes |
| `RbIterate.First` | src/rbtree.c:413-423 | the first node of the in-order sequence, null for the empty tree |
| `RbIterate.Last` | src/rbtree.c:425-435 | the last node of the in-order sequence, null for the empty tree |
| `RbIterate.Next` | src/rbtree.c:437-466 | the node that follows in the in-order sequence, null at its end and for a node in no tree |
| `RbIterate.Prev` | src/rbtree.c:468-494 | the node that precedes in the in-order sequence, null at its start and for a node in no tree |
| `RbIterate.PrevUndoesNext` | src/rbtree.c:437-494 | stepping back from the successor gives the node again |
| `RbIterate.NextThenPrev` | src/rbtree.c:437-494 | calling the two in turn on any node that is not the last gives that node again |
| `RbIterate.Enumerate` | src/rbtree.c:413-466 | first/next visits exactly the in-order sequence, each node once |
| `RbPostorder.PostorderChildrenFirst` | src/rbtree.c:524-540 | in post-order everything below a node comes in one block right before it |
| `RbPostorder.PostorderPermutes` | src/rbtree.c:512-548 | the post-order is a rearrangement of the in-order sequence |
| `RbPostorder.FirstPostorder` | src/rbtree.c:542-548 | the first node in post-order |
| `RbPostorder.NextPostorder` | src/rbtree.c:524-540 | the node that follows in post-order |
| `RbPostorder.EnumeratePostorder` | src/rbtree.c:524-548 | the post-order walk visits every node exactly once, in post-order |
| `RbSearch.GoLeft` | src/dso.c:275-276 | going left keeps every passed node on its side of the query, for any query that is monotone along the order |
| `RbSearch.GoRight` | src/dso.c:277-278 | going right does |
| `RbSearch.Bottom` | src/dso.c:268-283 | at an empty link every node of the tree is on one side of the query |
| `RbSearch.OrderedInsert` | src/dso.c:311-312 | a node linked where the descent ended keeps the order |
| `RbSearch.OrderedRemove` | src/rbtree.c:389-395 | erasing keeps the order |
| `RbDrain.FirstRemoved` | src/map.c:91-92 | erasing the first node leaves the saved successor as the new first node |
| `PageCache.PagesDisjoint` | src/dso.c:358-365 | no offset is covered by two pages of the tree |
| `PageCache.PagesAre` | src/dso.h:20-21 | each page of the tree starts at a multiple of 4096 and holds the file's bytes from there on, up to 4096 of them; the next page starts behind it |
| `PageCache.DsoData.Find` | src/dso.c:261-284 | finds the page covering the offset if and only if there is one, and that page holds the file's bytes |
| `PageCache.DsoData.Insert` | src/dso.c:286-318 | returns the page already covering the offset, or links the given one at its place in the order; which of the two, exactly |
| `PageCache.DsoData.Memcpy` | src/dso.c:320-329 | the copy length never underflows; the bytes written are those of the file, as many as the page, the file and the request allow, and nothing else in the buffer changes |
| `PageCache.DsoData.ReadMiss` | src/dso.c:331-383 | loads, links and copies the file's bytes; a page of the tree is released exactly when the copy yields nothing although the page exists; every page allocated stays accounted for, in the tree or released |
| `PageCache.DsoData.CacheRead` | src/dso.c:385-395 | at least one byte unless the request is empty or at the end of the file; the next request is never at the boundary |
| `PageCache.DsoData.Fetch` | src/dso.c:385-395 | either way the bytes are the file's, as many as page, file and request allow, and a linked page is released exactly at the boundary |
| `PageCache.DsoData.CachedRead` | src/dso.c:402-428 | min(size, file size - offset) bytes, equal to that slice of the file; the tree's pages stay aligned, disjoint and equal to the file; a linked page is released if and only if the request is empty, or starts at the end of a file that ends inside a page, and that page is not cached; every page allocated stays accounted for, in the tree or released |
| `PageCache.DsoData.DataReadOffset` | src/dso.c:466-480 | fails exactly beyond the file's end or when offset + size wraps; otherwise as cached_read |
| `PageCache.BoundaryRead` | src/dso.c:379-380 | on an empty cache a read of 8 bytes at offset 5000 of a file of 5000 bytes passes all checks, returns 0 and releases the page it has just linked |
| `PageCache.NextChunk` | src/dso.c:407-425 | after a chunk the next request is not at the boundary, also on the last iteration where the offset equals the file size |
| `PageCache.ReadAll` | src/dso.c:466-480 | every run of reads with size > 0 and offset < file size is answered as from the plain file, no linked page is ever released, and every other page that was read is |
| `PageRace.StepInv` | src/dso.c:331-395 | every step of every reader (find, load, insert under the lock, copy) keeps the invariant of the protocol, by which no page is lost |
| `PageRace.CopyBytes` | src/dso.c:320-329 | in any reachable state the copied bytes are the file's, the subtraction does not wrap, and only a reader at the end of the file copies nothing |
| `PageRace.RaceSafe` | src/dso.c:331-395 | for every interleaving of any number of readers: no two pages of the tree overlap, none of them has been released, all hold the file's bytes, every page ever allocated is in the tree, released, or still with the reader that loaded it, and a finished reader has exactly the bytes it asked for |
| `PageRace.FreesOwn` | src/dso.c:369-374 | exactly which pages a step releases: that of a reader that finds another one in its place, which it read itself and which was never linked, and one for which the file has no byte |
| `PageRace.RunBounded` | src/dso.c:402-428 | every run is bounded by a measure fixed at the start: all readers terminate |
| `PageRace.NeverStuck` | src/dso.c:331-395 | a reader that has not finished always has a step to take |
| `PageRace.RunsEnd` | src/dso.c:402-428 | every run that cannot go on has served every reader completely, and of the pages allocated each is either in the tree or released |
| `Intervals.FindSound` | src/map.c:143-166 | only a range containing ip is ever returned, whatever the ranges and the shape of the tree |
| `Intervals.FindExact` | src/map.c:143-166 | the exact condition for the tree at hand: the search succeeds if and only if some range containing ip is not in the left subtree of a node that starts and ends at or before ip |
| `Intervals.ShadowedYetFound` | src/map.c:143-166 | three ranges with a shadow in which every red-black tree answers correctly, so that the shape-free condition is not necessary |
| `Intervals.FindComplete` | src/map.c:143-166 | without a shadowing range the search returns null only if no range contains ip, for every shape |
| `Intervals.EveryShapeComplete` | src/map.c:143-166 | all trees over the given ranges, balanced or not, answer correctly if and only if no range starts and ends at or before ip while an earlier one contains ip and no later one does |
| `Intervals.AscendingUnshadowed` | src/map.c:143-189 | ranges whose ends never decrease in tree order, so also disjoint or repeated ones, satisfy it |
| `Intervals.NestedIsMissed` | src/map.c:143-189 | a red-black tree of two nested ranges in which the search misses the outer one |
| `Intervals.PlacedBetween` | src/map.c:176-183 | the descent of the insertion ends behind all ranges that do not start later |
| `Intervals.PlacedAscends` | src/map.c:169-189 | insertion keeps the starts ascending, also with equal starts |
| `Maps.AddressSpace.Find` | src/map.c:143-166 | the read-only descent returns what the search on the abstract tree returns: sound always, and null exactly if every range containing ip is behind a range to its right that ends at or before ip |
| `Maps.AddressSpace.Insert` | src/map.c:169-189 | the tree order gains the range behind all that do not start later, the list gains it at the end; any range is accepted |
| `Maps.AddressSpace.Purge` | src/map.c:83-95 | the loop that saves the successor and erases the current node visits the whole tree once in order and leaves it empty, every node marked as unlinked |
| `Events.Parse` | src/event.c:74-121 | the line is processed if and only if at least seven fields were read and it is executable; each field of the range is then that of its column, each protection and flag bit that of its character, and the name the line's, or //anon if it has none, although the event is reused and holds a wrapped length |
| `Events.Scan` | src/event.c:74-123 | a line contributes a range if and only if at least seven fields were read and it is executable, and then the one it stands for, column by column |
| `Events.PrepareMmap` | src/event.c:65-124 | exactly the executable lines are inserted: list in line order, tree by successive insertion |
| `Events.LineStands` | src/event.c:87-121 | the range in these statements is that of the line, column by column |
| `Events.StandsForOne` | src/event.c:87-121 | the columns determine the range |
| `Events.LoadedOrder` | src/event.c:65-124 | for ascending lines the tree order is the line order |
| `Events.LoadedFind` | src/event.c:65-124 | for ascending, non-overlapping lines and any ip, the search finds exactly the executable line that covers it, with that line's fields, or nothing if there is none |
| `Events.IteratePhdr` | src/event.c:162-184 | the callback sees start, end and name of the ranges in list order, up to and including the first negative answer; 0 if and only if there was none |
| `Strings.CompareChain` | src/dso.c:36-36 | the order of strcmp is transitive |
| `Strings.CompareFirst` | src/dso.c:36-36 | the first position where two names differ decides, by its character or by the end of the shorter name |
| `DsoRegistry.Dsos.FindByLongName` | src/dso.c:34-47 | finds the DSO with that long name if and only if there is one |
| `DsoRegistry.Dsos.FindSlot` | src/dso.c:34-62 | for a name that is not registered the descent ends at its place, without consulting short names; only a complete duplicate is refused |
| `DsoRegistry.Dsos.AddNew` | src/dso.c:577-588 | a new DSO is linked under its long name, appended to the list, and then gets its base name as short name |
| `DsoRegistry.Dsos.FindNew` | src/dso.c:590-604 | a requested name gets the registered object again and nothing changes; a new name gets a new object at the end of the list |
| `DsoRegistry.OneObject` | src/dso.c:590-604 | two registered DSOs are the same object if and only if they have the same long name |
| `DsoRegistry.RequestAll` | src/dso.c:521-604 | for every sequence of requests: same name, same object; different names, different objects; tree strictly sorted by strcmp of the long names; tree and list hold the same DSOs; list in first-request order |
| `Registry.Threads.Find` | src/machine.c:201-225 | cache and tree together find the thread if and only if it is linked, and leave it (or null) in the cache |
| `Registry.Threads.Link` | src/machine.c:233-234 | the bucket stays an ordered valid tree of its own tids |
| `Registry.Threads.Bury` | src/machine.c:67-80 | the thread leaves tree, cache and counter and joins the dead list; the bucket stays sound |
| `Registry.Threads.Put` | src/thread.c:50-63 | one reference less; at the last one the thread leaves the dead list and is deleted |
| `Registry.Threads.Remove` | src/machine.c:62-85 | the thread leaves tree, cache and counter and loses the tree's reference; it ends on the dead list if and only if somebody else holds it, and is deleted otherwise |
| `Registry.Threads.Drain` | src/machine.c:95-101 | the loop removes every thread once in tid order; tree, counter and cache are empty afterwards, the dead list has gained exactly the threads that are held, and the others are deleted |
| `Registry.SurvivorsOrOrphans` | src/machine.c:95-101 | each thread is kept or deleted, and kept exactly if it has more than the tree's reference |
| `Registry.NoSurvivors` | src/machine.c:95-101 | with all handles returned nothing is left on the dead list |
| `Registry.Threads.Counted` | src/machine.h:12-18 | between operations the counter is the size of the tree and the cache is null or a linked thread |
| `Machine.Table.constructor` | src/machine.c:43-53 | 256 empty buckets |
| `Registry.HashIs` | src/machine.c:55-60 | the bucket of a tid, negative ones included, is its remainder by 256 |
| `Machine.Table.FindAt` | src/machine.c:55-60 | lookup through hash, cache and tree is lookup in a plain map from tid to thread |
| `Machine.Table.Hold` | src/thread.c:40-48 | one reference more in thread and account |
| `Machine.Table.Release` | src/thread.c:50-63 | one reference less while others remain, in thread and account |
| `Machine.Table.FindNew` | src/machine.c:187-267 | the result is what the plain map says, extended by the thread and its leader if they were missing; every registered thread stays what it was; the thread has one reference more, a new leader the tree's only; recursion depth at most two, also when leader and thread share a bucket |
| `Machine.Table.InitMaps` | src/thread.c:65-80 | a leader gets an unused address space, any other thread its leader's, while the thread itself is already linked |
| `Machine.Table.FindNewThread` | src/machine.c:269-280 | the same between complete operations |
| `Machine.Table.Agreed` | src/machine.c:187-267 | in every reachable state each registered thread's leader is registered, and two threads share an address space if and only if they are in the same group |
| `Machine.Table.BucketCounts` | src/machine.c:187-260 | in every reachable state bucket i is a valid tree of threads with tid mod 256 equal to i by ascending tid, its counter the tree's size, its cache null or linked |
| `Machine.ServeAll` | src/machine.c:269-280 | for every run of requests with a fixed grouping the same tid always gives the same thread, and different tids different ones |
| `Machine.Table.DeleteThreads` | src/machine.c:87-104 | every bucket is emptied; its dead list gains the threads that are held, in tid order, and all others are deleted, in tid order |
| `Counts.FreedNowhere` | src/thread.c:50-63 | whatever has been freed is in no tree and on no list, and no thread refers to it |
| `Counts.FreeThreadInv` | src/thread.c:27-63 | deleting a thread at its last reference keeps every count right; it was not linked but on the dead list of its bucket, which loses it and nothing else |
| `Counts.FreeMapInv` | src/map.c:47-65 | deleting a map at its last reference keeps every count right; it was in no tree, and its list loses it and nothing else |
| `Counts.FreeSpaceInv` | src/map.c:114-132 | deleting an emptied address space at its last reference keeps every count right |
| `Counts.LinkMapInv` | src/map.c:169-189 | linking a map at any place of the tree and at the end of the list keeps every count right |
| `Counts.UnlinkThreadInv` | src/machine.c:70-80 | moving a thread from its tree to the end of the dead list of its bucket turns the tree's reference into a held one |
| `Counts.UnlinkFirstInv` | src/map.c:91-92 | erasing a map from the tree, which leaves it on the list, turns the tree's reference into a held one |
| `Drops.PurgeHangs` | src/map.c:83-95 | the maps left on the list of a purged address space are exactly those that somebody holds |
| `Drops.NothingHangs` | src/map.c:83-95 | a map that is on a list and in no tree is held |
| `Groups.OneGroup` | src/thread.c:65-80 | the threads that share an address space are of one group, and share it with their linked leader |
| `Lifetimes.Ledger.DsoPut` | src/dso.c:176-180 | one reference less; the object is kept even at zero |
| `Lifetimes.Ledger.MapPut` | src/map.c:47-65 | at the last reference the map, which is in no tree, leaves its list and is deleted, and its DSO loses one reference; otherwise only the count changes |
| `Lifetimes.Ledger.MapsPut` | src/map.c:83-132 | at the last reference the address space is emptied and deleted, and a map stays on its list if and only if somebody holds it; otherwise only the count changes |
| `Lifetimes.Ledger.Purge` | src/map.c:83-95 | every map of the tree loses the tree's reference; the list loses exactly the maps that are deleted, and those left on it outside a tree are exactly the ones somebody holds |
| `Lifetimes.Ledger.ThreadPut` | src/thread.c:27-63 | at the last reference the thread, which is in no tree, leaves its dead list and is deleted, and its address space loses one reference or is deleted with it; otherwise only the count changes |
| `Lifetimes.Ledger.FindNew` | src/machine.c:144-267 | whatever tgid the request names: it fails an assertion if and only if the thread must move and its address space is neither the leader's nor empty; otherwise the caller holds one more reference to the thread, and one to the leader is kept if and only if the thread must move to the address space it has; a new thread has a new address space or its leader's; without a move nothing is freed and no thread changes its address space; with a fixed grouping no thread moves and the groups stay in order |
| `Lifetimes.Ledger.Update` | src/machine.c:144-185 | the tgid is the requested one; if the thread must move it has the leader's address space, its old one, if it was the last user, is freed, and no other thread is touched |
| `Lifetimes.Ledger.InitMaps` | src/thread.c:65-80 | a leader gets a new address space, any other thread shares that of the leader registered under its tgid, whatever tgid that leader has; all handles taken on the way are returned, and the groups stay in order |
| `Lifetimes.Ledger.FindNewDso` | src/dso.c:577-604 | the listed DSO of that name with one reference more, or, if no listed DSO has it, a new one at the end of the list with two references, the list's and the caller's |
| `Lifetimes.Ledger.ProcessMmap` | src/event.c:21-40 | the new map ends with the tree's reference alone, in the tree and at the end of the list of its thread's address space, for the DSO of that name, and every handle taken on the way is returned |
| `Lifetimes.Ledger.RemoveThread` | src/machine.c:62-85 | the tree's reference becomes the one that is put; the thread ends at the end of its bucket's dead list if and only if somebody holds it, and all counts and other lists stay right |
| `Lifetimes.Ledger.DeleteThreads` | src/machine.c:87-104 | bucket by bucket and by ascending tid, all counts and lists stay right while the trees are emptied, whatever handles are outstanding |
| `Lifetimes.Ledger.DsosPurge` | src/machine.c:21-35 | the list gives back its references and is empty |
| `Lifetimes.Ledger.Teardown` | src/machine.c:106-128 | the threads that are left are exactly those that are held, and a dead list is non-empty if and only if there is one; every thread, address space and map ever created has been deleted exactly once and no DSO has a reference left, if and only if no handle is outstanding |
| `Endings.OnlyHeld` | src/machine.c:87-104 | with no thread linked those that are left are held, each on its dead list |
| `Endings.AllGone` | src/machine.c:106-128 | the invariant alone gives that: with nothing linked everything is deleted, once, if and only if nothing is held |
| `Runs.Serve` | src/machine.c:187-280 | what each call does for its user: a handle to the thread of that tid, one new map in that thread's address space, one handle less, or the end of the machine, and nothing if it is refused; it gives back every reference to an address space, a map or a DSO, and fails an assertion exactly under the stated condition; with a fixed grouping the references to threads that are left are the users' |
| `Runs.Run` | src/event.c:21-40 | every run of requests, mmap events, returned handles and deletion, in any order, from the empty library: each call has that effect, the machine exists if and only if no call deleted it, the invariant holds, no map is left on the list of a deleted address space, and after the deletion everything is freed if and only if no thread is held; with a fixed grouping no call fails, groups share their address spaces, and the users' handles are all that is held |
| `Runs.HeldMapHangs` | src/map.c:83-132 | a map that is held while its address space is deleted stays on the list of the deleted object |
| `Runs.LateHandle` | src/machine.c:106-128 | a handle that outlives the machine is on a dead list of the deleted machine |
| `Runs.LeaderLeaks` | src/machine.c:167-168 | thread 7 seen in group 5, as its own leader, and in group 5 again: with all handles returned the leader is never freed |
| `Runs.MoveFails` | src/machine.c:170-172 | a thread with mappings seen with another tgid: the assertion fails |
| `EhFrame.FormatByCode` | src/unwind_libunwind.c:129-147 | the code's masks and its default of 4 bytes select exactly the formats of the table, given nibble by nibble |
| `EhFrame.ReadEncoded` | src/unwind_libunwind.c:103-152 | for 0xff, 0x00 and every low nibble: how many bytes are taken, which unsigned or signed number they are, least significant byte first, whether their own address is added, modulo 2^64; any other encoding and too few bytes give -EINVAL |
| `EhFrame.LiteralDecoded` | src/unwind_libunwind.c:103-152 | the table of formats gives the same for every encoding |
| `EhFrame.LittleEight` | src/unwind_libunwind.c:93-100 | eight bytes read as a word are their sum with weights 1, 256 and so on |
| `EhFrame.PointerRoundTrip` | src/unwind_libunwind.c:103-152 | an 8-byte encoding of any target decodes to that target |
| `EhFrame.ShortRoundTrip` | src/unwind_libunwind.c:132-147 | a 4-byte encoding of a target decodes to it if and only if the distance fits, 32 bits without or 31 bits with a sign |
| `EhFrame.HeaderSuffices` | src/unwind_libunwind.c:61-85 | any two encoded pointers fit the 16 bytes of the header |
| `Unwind.ReadHeader` | src/unwind_libunwind.c:214-220 | for every header and pair of encodings decoding fails only for an unsupported one; the table starts right behind the two pointers |
| `Unwind.HeaderByNibble` | src/unwind_libunwind.c:214-220 | the two pointers are read one after the other from byte 4 on by the encodings in bytes 1 and 2, and the table starts where the second ends |
| `Unwind.OrdinaryHeader` | src/unwind_libunwind.c:214-220 | for the header linkers write (0x1b, 0x03) the table is at 12 and the count is the four bytes before it |
| `Unwind.SpecEhframe` | src/unwind_libunwind.c:200-221 | the same through the page cache of the file: success if and only if the file has the whole header and both encodings are supported |
| `Unwind.TranslateBack` | src/map.h:41-49 | offset to address and back is the identity modulo 2^64, both ways |
| `Unwind.SameFileByte` | src/unwind_libunwind.c:271-272 | an offset handed out as an address is read back from the same place of the same file |
| `Unwind.FindProcInfo` | src/unwind_libunwind.c:249-280 | success if and only if a range contains ip and its file has a usable header; base and table address lead back to their offsets, and the table length is the number of entries modulo 2^61 |
| `Unwind.Describe` | src/unwind_libunwind.c:265-280 | the same for the range found: the description leads back to its file |
| `Unwind.HugeCount` | src/unwind_libunwind.c:273-274 | a header whose count of 4 signed bytes decodes to 2^64 - 1 entries, for which the length is 2^61 - 1 |
| `Unwind.Files.ReadOffset` | src/dso.c:495-502 | a read of one file leaves all caches correct and, away from that file's end, releases no page |
| `Unwind.AccessDsoMem` | src/unwind_libunwind.c:296-315 | succeeds exactly when the range found has the whole 8-byte word in its file, and gives that word, least significant byte first |
| `Unwind.ReadAddr` | src/unwind_libunwind.c:311-314 | a word read through the page cache is the eight bytes of the file at that place, least significant first, or there are not that many |
| `Unwind.AccessMem` | src/unwind_libunwind.c:317-355 | the snapshot answers exactly when sp <= addr and addr + 8 < sp + size without wrap, never indexed outside, with its eight bytes at addr, least significant first; otherwise the file does, or the read fails with 0; writes and empty snapshots give 0; an address that wraps gives -EINVAL |
| `Unwind.SnapshotTest` | src/unwind_libunwind.c:333-350 | the test in wrapping arithmetic means what it says, and the index stays inside |
| `Unwind.LastWordRefused` | src/unwind_libunwind.c:341-341 | the last word of a snapshot of 8192 bytes is refused |
| `Session.SpaceFor` | src/event.c:29-30 | the thread found has its group's address space, a new and empty one if the group was not registered |
| `Session.Process` | src/event.c:21-40 | the range goes into the group's address space whichever thread is presented, and the registry stays right |
| `Session.ThreadMap` | src/event.c:133-144 | all executable lines end up in the group's address space; without one, nothing is created |
| `Session.FindMap` | src/unwind_libunwind.c:187-198 | any thread of the group searches that address space |
| `Session.MapThenFind` | src/event.c:133-144 | end to end: mapping a process through one thread and looking an address up through any thread of it finds exactly the executable line that covers it, with that line's range, bits, offset and file name |
| `Unwind.LoadedMemory` | src/event.c:65-124 | end to end: in an address space loaded from ascending lines, an address covered by an executable line is answered with the word of the file named in that line, at the line's offset |
| `Lists.AddRing` | src/list.h:36-44 | inserting between any two neighbours of a ring gives the ring with the entry there |
| `Lists.DelRing` | src/list.h:85-89 | unlinking an entry gives the ring without it |
| `Lists.OtherRing` | src/list.h:36-89 | a ring that shares no node with those written to is unaffected |
| `Lists.ListAdd` | src/list.h:59-62 | the entry becomes the first |
| `Lists.ListAddTail` | src/list.h:73-76 | the entry becomes the last |
| `Lists.ListDelInit` | src/list.h:141-145 | the entry is taken out and is an empty list of its own |
| `Lists.IsSingular` | src/list.h:227-230 | true exactly for one entry |
| `Lists.ListCutPosition` | src/list.h:258-270 | the entries up to and including the given one move to the other list, the rest stays; with an empty list, or with one entry that is not the given one, nothing is written at all |
| `Lists.CutOfEmpty` | src/list.h:258-270 | cutting an empty list leaves the target list with the entry it had |
| `Lists.ListSplice` | src/list.h:291-296 | the entries go to the front in order; with the init form the emptied head is an empty list |
| `Lists.ListSpliceTail` | src/list.h:303-308 | the entries go to the end in order |
| `Lists.DrainList` | src/machine.c:27-32 | the safe walk that deletes each entry visits all of them once in order and leaves the list empty and every entry alone |

## Left out

- The packing of parent and colour into one word (src/rbtree.h:36-37): the two are separate fields; a cleared node is one that is red and its own parent, which is what the stored address reads as.
- Foreign calls: `pread` returns all bytes available up to one page of one fixed file, allocation succeeds, `open`, `fstat` and the status field never fail, `sscanf` is represented by its result, `basename` and the ELF section search are function parameters, and the call into libunwind ends the model.
- Locks: operations are sequential; only the page-load protocol is concurrent, and there the search, which the source does not lock (src/dso.c:390), is one atomic step.
- PageRace.RaceSafe: on values, as a state machine; the tree of pages is a set there, since its shape does not matter to the protocol.
- Lifetimes.Ledger.Teardown: counts live in one record of numbered objects, not in the objects themselves, and the count of an object under deletion is taken off when it is freed; the order of the dead lists after a teardown is stated by `Machine.Table.DeleteThreads`.
- Lifetimes.Ledger.FindNew: handles that the public functions never return (src/event.c:152-159, 171) count as outstanding; after a failed assertion nothing is promised, since the process ends.
- Lifetimes.Ledger.ProcessMmap: the position of a new map in its tree is left open there; `Maps.AddressSpace.Insert` states it.
- Machine.Table.FindNew: runs in which every tid is always presented with the same tgid, as are those of `FindNewThread` and `ServeAll`; the branch of `machine__update_thread_tgid` that moves a thread to another group (src/machine.c:144-184) is modelled in `Lifetimes` only, and the failed creation (src/machine.c:244-250), which needs a failing allocation, nowhere.
- Machine.Table.FindNewThread: the same restriction.
- Machine.ServeAll: the same restriction.
- The union of tree node and list node in `struct thread`: a removed thread is in the sequence `dead`; that `list_del_init` makes it read as an unlinked tree node is not modelled.
- Maps.AddressSpace.Purge: reports the order of the `map__put` calls and keeps its list; what they do to counts and to the list is stated by `Lifetimes.Ledger.Purge`.
- The lists of address ranges, DSOs and dead threads are sequences in their classes; that the pointer operations realise sequences is proved in `Lists`.
- RbReplace.ReplaceNode: says nothing about augmented values, which the source does not copy.
- DsoRegistry.Dsos.FindSlot: no order is promised for a DSO whose long name is registered already; no caller has one.
- Search by short name, `dso__set_long_name` on a linked DSO, file descriptors and error printing: single branches or unused.
- PageCache.DsoData.DataReadOffset: negative sizes, which no caller passes, are not modelled.
- Unwind.AccessMem: the snapshot has the 8192 bytes of `struct unwind_ctx` and its size field does not exceed them; the test for a null snapshot is dropped because the snapshot is an array member.
- The callchain loop (`get_entries`), register tables, `thread__set_comm`: settled by enumeration or driven by libunwind.
- `src/queue.h`, hlists, the remaining list helpers, `src/stdatomic.h`, path helpers, the eBPF capture code, examples and patches.

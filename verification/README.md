# Masstree in Dafny

This project models the Masstree key-value store (`masstree/`) and two small state machines of the benchmark
harness (`harness/`), and proves what they are for.  Masstree is a trie of B+trees: a key is cut into 8-byte
slices, each layer is a B+tree over one slice, and a slot whose keys are longer leads to the next layer.

`dafny verify dfyconfig.toml` checks everything.

## What is proved

| module | main results |
|---|---|
| `LeafLink` | The lock-free doubly linked leaf list, one step per atomic access. In every interleaving of splits and unlinks the next pointers ascend, every linked leaf is reachable, unmarked edges are mirrored by `prev_`, an operation that ends has taken effect, and some pending operation can always finish (`RunsAreSafe`, `ListIsTally`, `OperationsTakeEffect`, `NoDeadlock`). |
| `Replay` | Log replay of one key: any order of the records ends in the row that running the operations in order made, with no delta marker left, also from a checkpoint; that row has just the columns written last (`ReplayOrderIrrelevant`, `ReplayFromCheckpoint`, `RowColumns`, `Recover`). |
| `Tree` | One layer's B+tree: every slice is routed to the leaf responsible for it; removing a leaf with separator reshaping and collapse hands just its slices to the leaf before; splits propagated upward keep the leaves and the search order (`RouteFindsOwner`, `RemoveLeaf`, `RemovalRoutes`, `FinishSplit`). |
| `Slices`, `Layers` | (slice, class) comparison layer by layer is byte order; every run of puts, removes and gets answers like a plain map (`SlicedOrder`, `Put`, `Remove`, `Get`, `Run`). |
| `Scan` | A forward scan gives exactly the stored keys from the start key on, once each, in ascending byte order, and ends; a scanner that stops early gets exactly the first of them (`ScanForward`, `ScanUntil`). |
| `Leaf` | A leaf's slots under insert, remove, reuse and split: no slot a reader may trust is rewritten without a version change, `ikey0_[0]` of a leaf with a predecessor never changes, splits conserve the entries (`LeafNode.Insert`, `LeafNode.Remove`, `LeafNode.SplitInsert`). |
| `Reader` | `Leaf` and `Version` put together: a lock-free reader of a leaf, with any writers between its accesses, that validates saw the leaf's entries of one moment (`Read`). |
| `Permuter` | The nibble-packed permutation refines a (size, permutation) pair; the lowest zero nibble is found despite borrows. |
| `Internode`, `ParentLinks` | The in-place array code of interior nodes: a split is "insert, then cut", and after a split carried up to the root every child knows its parent and is found by the descent for its slices (`InternodeSplit`, `ArraysRefine`, `Heap.FinishSplit`, `DescentEnds`). |
| `Version` | The version word: fewer than 2^19 marked sections are always detected, and 2^19 is exactly the bound; the masks, additions and exclusive-ors on the 32-bit integer do just this to its fields, bit by bit (`ChangeIsDetected`, `BoundIsExact`, `TestsRefine`, `NodeVersion.Do`). |
| `Timestamps` | With atomic operations the timestamps of a key strictly increase across remove, re-insert, leaf deletion and restart; what the logs hold is a history `Replay` can rebuild the row from. |
| `NodeTimestamps` | The same with every access to a leaf's `node_ts_` a step of its own: for all runs exactly when a removed key stays below its leaf's timestamp and when its log stays in order, and five runs in which it does not (`CoveredExactly`, `HistoriesExactly`). |
| `LogCodec` | The log's byte format: what was recorded is read back; any byte prefix gives exactly the whole records in it. |
| `Durability` | `Timestamps`, `LogCodec` and `Replay` put together: the bytes of all logs of any run, read and replayed in any order, give back every row, except one with the empty key (`Durable`, `WriteLog`, `Serve`). |
| `ObjectJson` | The index-linked, insertion-ordered hash table of `Json::ObjectJson`. |
| `Client`, `Server` | The load generator's request accounting and samples, and the server's fair choice of the next client. |

## Where the code does not do what one would expect

* A re-inserted key can get a timestamp below that of its removal.  `remove_leaf` merges a leaf's `node_ts_` into
  its predecessor with a compare-and-swap but without that leaf's lock (masstree/masstree_remove.hh:163-174), so
  other threads can undo it.  `NodeTimestamps` has five such runs, each ending in a log that goes back in time:
  `NodeTsLost`, `apply_remove` read the predecessor's field before the merge and writes it after; `LostToNewLeaf`, a
  split of the predecessor copied the field before the merge and links the new leaf in before the unlink;
  `LostByLink`, it links it after the unlink and moves the keys there; `LostToPredecessor` and `LostWithPredecessor`,
  the predecessor is being deleted too and had already merged into its own.
  Exactly: a removed key below its leaf's timestamp stays so through a step if and only if the step is not a
  removal's write that read a value up to its own timestamp and writes one not above the key's removal, nor a link
  that moves the key to a leaf with a timestamp not above it, nor an unlink whose predecessor has such a timestamp
  (`NodeTsKept`, over whole runs `CoveredExactly`).  Logs stay in order if and only if no re-insertion is done by a
  thread whose clock is not past the removal in a leaf whose timestamp is not past it (`HistoriesExactly`).  None is
  when nobody writes a leaf's `node_ts_` between a removal's read and write, a split's copy and link, or a
  deletion's swap and unlink, and no leaf comes before a deleted one between its check and its unlink
  (`CalmHistories`).
* `Durability.EmptyKeyLost`, `Durable`: replay skips log records with an empty key (masstree/log.cc:591), although
  the tree stores that key like any other and its operations are logged.  What a reader saw of a key is recovered
  if and only if the key is not empty or there was nothing to see.
* `Client.CompletedBeforeCounted`, `CompletedIsSent`: `numReqsSent` is incremented after the transmission, so a
  response can be counted first.  `completed <= sent` fails exactly while a send is in progress and every request
  transmitted so far, that one included, has been answered.
* `Tree.Cut`: a sequential split (type 2) of an interior node leaves the new node one child and no separator.  So
  "only the root has a single child" is no invariant of runs; `Tree.RemoveLeaf` keeps it where it holds.
* `Version.BoundIsExact`: after exactly 2^19 split sections a reader does not notice any of them.
* The comments of `kpermuter::remove` and `remove_to_back` ask for `size() < width`; the code does not need it and is
  called on full leaves.

## Modelling decisions

* Nodes have width 15.  The version word is an integer with its fields beside it, the permuter its nibbles;
  carries, borrows and masks are explicit.
* `LeafLink` takes one atomic load, store or compare-and-swap as one step, under sequential consistency.  A thread
  works on a leaf only while it holds that leaf's lock, so each leaf is in at most one operation.
* `Tree`, `Layers` and `Scan` run one thread on tree values; a path of ancestors stands for the parent pointers.
  `ParentLinks` has the parent fields themselves.  The first leaf of a layer has bound 0 in `Tree`; its `ikey0_[0]` is not meaningful in the code.
* `make_comparable` is big-endian packing with zero padding.  A suffix is a field of its slot.
* In `Layers` a leaf with 14 entries may split or not, depending on whether the free slot is the reserved slot 0;
  both are covered.  That a split is never entered with fewer is proved in `Leaf`.
* Every `find_insert` is completed by `finish(1)`, as the table operations do.
* A row is a column map; `update` on a remove marker starts from no columns.  A remove record makes a recognisable
  tombstone.  Each record is replayed at most once, except those a checkpoint already covers.
* In `Timestamps` an operation is one step.  In `NodeTimestamps` every load, store and swap of a `node_ts_`, and
  every load of `prev_`, is one; linking and unlinking a leaf are one step each, at the store that publishes it.
* `Durability` runs the store first and then writes each log: logs share nothing but the wake epoch, which is an
  input.  Changesets are packed into bytes by a function that can be inverted.  Replay reads whole logs.
* The history notes of `NodeTimestamps` and the tally of `LeafLink` are computed from the steps of a run.
* `Reader` runs whole locked sections of writers between the reader's loads.  Unmarked sections do not change what
  the reader compares, and a section open at the validation is seen by its mark (`Version.ChangeIsDetected`).
* Timestamps are unbounded numbers; `CircularIsOrder` relates them to the 64-bit comparison for spreads below 2^63.
  Epochs are compared likewise.
* `Client` and `Server` take clocks, sockets and readiness as inputs.

## Model

| member | source | states |
|---|---|---|
| LeafLink.RunsAreSafe | masstree/btree_leaflink.hh:38-96 | in every interleaving the mark-stripped next pointers ascend in bound order, every linked leaf is reachable from the first, and a leaf reached by an unmarked edge has `prev_` equal to its predecessor |
| LeafLink.ChainsAscend | masstree/btree_leaflink.hh:38-96 | no chain of next pointers returns to a leaf it has left |
| LeafLink.OperationsTakeEffect | masstree/btree_leaflink.hh:54-96 | in every run, the step that ends an `unlink` leaves the leaf dead and no linked leaf leading to it, but for a split about to publish; the step that ends a `link_split` leaves the new leaf linked both ways as the successor |
| LeafLink.ListIsTally | masstree/btree_leaflink.hh:38-96 | in every run the leaves whose split is over and whose unlink is not, counted on the steps, are on the list, and when no operation is in progress no others are |
| LeafLink.RunAgrees | masstree/btree_leaflink.hh:38-96 | the operations counted on the steps are those the leaves are in |
| LeafLink.AdvanceEffect | masstree/btree_leaflink.hh:38-96 | every step goes on with its operation or completes it, and leaves the others where they are |
| LeafLink.QuiescentList | masstree/btree_leaflink.hh:51-96 | with no operation in progress the list is unmarked, linked both ways, and has exactly the linked leaves |
| LeafLink.NoDeadlock | masstree/btree_leaflink.hh:39-48 | while an operation is in progress some operation takes effect and ends if it alone is scheduled |
| LeafLink.SomeFinishes | masstree/btree_leaflink.hh:39-96 | waiting goes left along the list, so it ends at an operation that can finish |
| LeafLink.RunInv | masstree/btree_leaflink.hh:38-96 | the inductive invariant holds in every reachable state |
| LeafLink.StepInv | masstree/btree_leaflink.hh:38-96 | every step of every operation keeps the invariant |
| LeafLink.SplitPublishInv | masstree/btree_leaflink.hh:67-68 | publishing the new leaf keeps the invariant, also when the old successor was unlinked meanwhile |
| LeafLink.UnlinkPublishInv | masstree/btree_leaflink.hh:92-95 | the last store of `unlink` keeps the invariant |
| LeafLink.CaptureInv | masstree/btree_leaflink.hh:86-91 | marking the predecessor's next pointer keeps the invariant |
| LeafLink.Predecessor | masstree/btree_leaflink.hh:86-88 | the leaf whose pointer `unlink` swaps is the list predecessor, or the new leaf a split of it is about to publish |
| LeafLink.LinkedReachable | masstree/btree_leaflink.hh:54-55 | a linked leaf is on the chain from the first leaf, detours through dead leaves included |
| Replay.ReplayOrderIrrelevant | masstree/log.hh:304-380 | each record once, in any order, ends in the in-order row alone, whose columns `RowColumns` gives |
| Replay.ReplayFromCheckpoint | masstree/mtd.cc:1369-1373 | the same from a checkpoint row taken anywhere in the history, with stale records repeated or not |
| Replay.ReplayFromAbsent | masstree/log.hh:304-380 | the same visible row when the checkpoint was taken while the key was absent |
| Replay.ReplayedIsCanon | masstree/log.hh:304-380 | after any records in any order the chain is determined by which records were seen |
| Replay.ApplyCanon | masstree/log.hh:304-380 | one record not seen before leads from one canonical chain to the next |
| Replay.ApplyStale | masstree/log.hh:314-316 | a record older than a completely seen prefix changes nothing |
| Replay.CanonSuffix | masstree/log.hh:359-379 | once a put, replace or remove and everything later was seen, no delta marker is left |
| Replay.RowColumns | masstree/kvrow.hh:311-379 | the row holds a value in a column if and only if some operation wrote it and none since has written the column, replaced or removed the row |
| Replay.InOrder | masstree/kvrow.hh:311-379 | the row operations run in order make: a tombstone exactly after a remove, with the last operation's timestamp |
| Replay.Slot.ApplyRecord | masstree/log.hh:304-380 | `apply` in place computes the specified chain and keeps the delta counters equal to the markers in it |
| Replay.Slot.FindPlace | masstree/log.hh:309-312 | where the record belongs: below the delta markers with later timestamps |
| Replay.Slot.ApplyAt | masstree/log.hh:318-356 | the change at that place; a put, replace or remove deletes everything earlier |
| Replay.Slot.DropFrom | masstree/log.hh:319-327 | everything from a position down goes, and each removed delta marker is counted |
| Replay.Slot.CleanUp | masstree/log.hh:358-379 | delta markers melt into the row they wait for, lowest first, until one still waits |
| Replay.Recover | masstree/mtd.cc:1497-1508 | recovery of a key in any order leaves the in-order row, with the values its operations wrote last, and equal delta counters |
| Tree.RouteFindsOwner | masstree/masstree_traverse.hh:75-101 | every slice in a node's interval reaches the leaf of the leaf list responsible for it, never a missing child |
| Tree.ReachLeaf | masstree/masstree_traverse.hh:51-102 | the descent ends in that leaf, and the ancestors form a well-formed path |
| Tree.UpperLinear | masstree/ksearch.hh:166-180 | the linear search finds the first separator above the slice |
| Tree.UpperBinary | masstree/ksearch.hh:39-56 | so does the binary search, early exit included |
| Tree.UpperFinds | masstree/masstree_remove.hh:191-192 | a parent's search for a slice ends at the child whose interval holds it |
| Tree.FindsWay | masstree/masstree_remove.hh:242-243 | from below, every ancestor's search ends at the child the path comes from |
| Tree.Widen | masstree/masstree_remove.hh:194-208 | a subtree can take over slices above its own |
| Tree.DropKid | masstree/masstree_remove.hh:196-198 | dropping a child and the separator before it hands its slices to the child before |
| Tree.DropSecondKid | masstree/masstree_remove.hh:194-218 | if that child is missing, the node now starts at its new first separator |
| Tree.DropFirstKid | masstree/masstree_remove.hh:214-218 | nulling the first child makes the node start at its first separator |
| Tree.MoveSeparator | masstree/masstree_remove.hh:199-200 | moving a separator up hands slices to the child before it, or raises the node's start |
| Tree.EditEnds | masstree/masstree_remove.hh:201-207 | the first ancestor with a child before the removed slices is well formed after the change |
| Tree.EditStart | masstree/masstree_remove.hh:192-201 | every ancestor below that one started at the removed leaf's bound |
| Tree.EditDrops | masstree/masstree_remove.hh:210-219 | an ancestor that lost its first leaf is deleted or starts later, and keeps its other leaves |
| Tree.EditReshapes | masstree/masstree_remove.hh:199-221 | reshaping goes on upward with the same new start |
| Tree.RemoveLeaf | masstree/masstree_remove.hh:179-225 | the tree stays well formed, loses just that leaf, never runs off the root; if beside its path only the root had no separator, that is so afterwards |
| Tree.RemovalRoutes | masstree/masstree_remove.hh:179-225 | afterwards every slice is routed as before, except that the removed interval goes to the leaf before |
| Tree.Collapse | masstree/masstree_remove.hh:227-257 | one-child internodes are replaced by their child, upward, keeping the leaves; only a root stays |
| Tree.PullUp | masstree/masstree_remove.hh:242-245 | one round of it |
| Tree.Finish | masstree/masstree_remove.hh:201-206 | an internode that lost its last separator is collapsed |
| Tree.FinishSplit | masstree/masstree_split.hh:167-238 | a split carried upward keeps the tree well formed and puts the two leaves where the one was |
| Tree.Fork | masstree/masstree_split.hh:185-202 | the parent with the new separator and child keeps search order and leaves |
| Tree.Cut | masstree/masstree_split.hh:45-75 | an overfull node cut at `mid`, either split type: both halves well formed, the leaves shared out, and a right half without separators exactly for type 2 |
| Tree.NewRoot | masstree/masstree_split.hh:173-183 | a split root gets a parent |
| Slices.SlicedOrder | masstree/masstree_key.hh:130-140 | comparing (slice, class), then the rest in the next layer, is lexicographic byte order |
| Slices.SlicedInjective | masstree/masstree_key.hh:25-33 | slice, class and rest determine the key |
| Slices.PackOrder | masstree/masstree_key.hh:25-27 | the order of padded big-endian numbers |
| Slices.PackUnpack | masstree/masstree_key.hh:177-180 | storing a slice into the key buffer and packing it again gives it back |
| Slices.SliceGivesBack | masstree/masstree_key.hh:142-148 | slice and length class give back a key's first bytes |
| Layers.CompareIs | masstree/masstree_key.hh:130-140 | the sign of `key::compare` is the order by (slice, class), layer slots included |
| Layers.LowerWithPosition | masstree/ksearch.hh:198-216 | the slot with the key's slice and class, or the position where it belongs |
| Layers.Get | masstree/masstree_get.hh:22-68 | finds a value exactly when the trie has it, and terminates because the key shortens by 8 |
| Layers.HasInLeaf | masstree/masstree_get.hh:33-47 | only the leaf the descent ends in can hold a key |
| Layers.Put | masstree/masstree_insert.hh:123-146 | the trie stays well formed and maps the key to the value; every other key is as before |
| Layers.PutEntry | masstree/masstree_insert.hh:26-84 | the slot for the key's slice is updated, descended into, or turned into a layer |
| Layers.NewLayer | masstree/masstree_insert.hh:32-84 | the new layer holds exactly the two keys, through further layers if their slices agree |
| Layers.InsertKey | masstree/masstree_insert.hh:86-120 | a key without a slot is inserted into its leaf, with a split or without |
| Layers.SplitLeaf | masstree/masstree_split.hh:156-241 | the split leaf, seen from the root, adds the key and changes nothing else |
| Layers.ChooseSplit | masstree/masstree_split.hh:109-134 | the split position separates different slices |
| Layers.CutLeaf | masstree/masstree_split.hh:136-152 | both halves are well formed leaves on their sides of the split slice |
| Layers.Remove | masstree/masstree.cc:160-168 | unmaps the key, tells whether it was there, and changes nothing otherwise |
| Layers.RemoveAt | masstree/masstree_remove.hh:136-157 | an emptied leaf with a predecessor leaves the tree; the first leaf stays |
| Layers.LocalEffect | masstree/masstree_insert.hh:22-121 | a change of one leaf's contents is that change of the whole layer |
| Layers.Table.Do | masstree/masstree.cc:106-168 | each operation answers and changes the table like a plain map |
| Layers.Run | masstree/masstree.cc:106-168 | so does every run from an empty table, on arbitrary byte strings |
| Scan.ScanForward | masstree/masstree_scan.hh:298-370 | the stored keys at or after the start key (the start key itself if asked for), once each, in strictly ascending byte order |
| Scan.ScanTable | masstree/masstree.cc:148-152 | the same for a table against its plain map |
| Scan.ScanUntil | masstree/masstree_scan.hh:335-344 | the scanner may stop after any item: what was given is in order and was asked for, it had not stopped before, and what is missing comes after all of it, and only if it did stop |
| Scan.ScanAll | masstree/masstree_scan.hh:324-370 | the tree's items are a prefix none of which was asked for, what is given out, and a rest that is empty unless the scanner stopped; the loop ends |
| Scan.Initial | masstree/masstree_scan.hh:324-331 | the way down to the start key skips exactly the items before it |
| Scan.FindInitial | masstree/masstree_scan.hh:168-225 | the position in a layer, with the suffix comparison and the equal key |
| Scan.StartAtValue | masstree/masstree_scan.hh:211-222 | a value at the start key's slice is given out if its suffix is greater, or equal and wanted |
| Scan.FindNext | masstree/masstree_scan.hh:241-296 | the next entry of the layer across leaf boundaries, with its key in the buffer |
| Scan.TakeKey | masstree/masstree_scan.hh:253-281 | slice, suffix and length stored into the buffer make up the entry's key |
| Scan.SkipDuplicates | masstree/masstree_scan.hh:264-267 | entries not after the current key are skipped, and none is when all are after it |
| Scan.NextLeaf | masstree/masstree_scan.hh:284-295 | the search in the next leaf starts at its first entry |
| Scan.FindRetry | masstree/masstree_scan.hh:227-239 | in a new layer the scan starts at the first entry of the first leaf |
| Scan.NotEmptyKey | masstree/masstree_insert.hh:33-50 | only the first layer stores the empty key, so nothing of a new layer is taken for a duplicate |
| Scan.GoDown | masstree/masstree_scan.hh:356-363 | descending keeps what is still to be given and shortens the work |
| Scan.GoUp | masstree/masstree_scan.hh:347-354 | so does ascending, past the entry that led down |
| Scan.EmitOnTop | masstree/masstree_scan.hh:335-344 | the emitted key and value are the first of what is still to be given |
| Scan.ItemsAreContents | masstree/masstree_scan.hh:298-370 | the in-order items of a trie are exactly its contents, in strictly ascending byte order |
| Permuter.Perm.InsertFromBack | masstree/kpermuter.hh:109-137 | the documented index equations, and the fifteen values stay distinct |
| Permuter.Perm.Remove | masstree/kpermuter.hh:154-187 | the same for `remove` |
| Permuter.Perm.RemoveToBack | masstree/kpermuter.hh:188-215 | the same for `remove_to_back` |
| Permuter.Perm.Exchange | masstree/kpermuter.hh:239-244 | the same for `exchange` |
| Permuter.MakeSorted | masstree/kpermuter.hh:76-86 | the packed word is the sorted permutation with free slots allocated in order from the back |
| Permuter.RotateRefines | masstree/kpermuter.hh:172-187 | `remove`'s shifts and masks compute `Remove` |
| Permuter.ToBackRefines | masstree/kpermuter.hh:205-215 | `remove_to_back`'s shifts and masks compute `RemoveToBack` |
| Permuter.Kpermuter.InsertFromBack | masstree/kpermuter.hh:127-137 | the in-place word operation computes `Perm.InsertFromBack` and returns the slot |
| Permuter.Kpermuter.Remove | masstree/kpermuter.hh:172-187 | the in-place word operation computes `Perm.Remove` |
| Permuter.Kpermuter.RemoveToBack | masstree/kpermuter.hh:205-215 | the in-place word operation computes `Perm.RemoveToBack` |
| Permuter.Kpermuter.Exchange | masstree/kpermuter.hh:239-244 | the exclusive-or trick computes `Perm.Exchange` |
| Permuter.FindLowestZeroNibble | masstree/compiler.hh:700-712 | the lowest zero nibble, or -1, whatever the borrows do above it |
| Permuter.FindSlotZero | masstree/masstree_insert.hh:109-110 | in a leaf's permuter it is the position of slot 0 |
| Leaf.LeafNode.Insert | masstree/masstree_insert.hh:86-146 | the entry goes in at its position, into this leaf or with a split; slots a trusting reader may know are kept; `ikey0_[0]` stays |
| Leaf.LeafNode.ChooseSlot | masstree/masstree_insert.hh:86-120 | the back slot only if free of removed ones, slot 0 only if its slice stays; a split only with at least 14 live slots and none removed |
| Leaf.LeafNode.Reuse | masstree/masstree_insert.hh:103-116 | giving up removed slots marks the version and keeps slot 0 the last to be taken |
| Leaf.LeafNode.Assign | masstree/masstree_struct.hh:356-362 | a slot a trusting reader may look at is not written, and slot 0 keeps its slice |
| Leaf.LeafNode.FinishInsert | masstree/masstree_insert.hh:138-146 | the assigned slot becomes live at its position |
| Leaf.LeafNode.Remove | masstree/masstree_remove.hh:136-147 | the entry goes; removed slots stay just above the live ones |
| Leaf.LeafNode.SplitInsert | masstree/masstree_split.hh:91-223 | both leaves together hold the old entries and the new key in order, slices divided strictly at the split slice |
| Leaf.LeafNode.MakeRight | masstree/masstree_split.hh:136-147 | the right leaf has its part, bounded by its slot 0 |
| Leaf.LeafNode.LeftKeep | masstree/masstree_split.hh:205-215 | the left leaf keeps its part, a free slot 0 stays just above it |
| Leaf.LeafNode.LeftPart | masstree/masstree_split.hh:205-222 | the left leaf ends with its part, the new key included if it belongs there |
| Leaf.LeafNode.Unlock | masstree/nodeversion.hh:108-120 | a marked section ends trust in older permutations |
| Leaf.ZeroStaysLeft | masstree/masstree_split.hh:205-215 | slot 0 of a leaf with a predecessor is not moved by a split |
| Leaf.ClassGrows | masstree/masstree_split.hh:116-134 | at most ten keys share a slice |
| Leaf.KeepSlicesTogether | masstree/masstree_split.hh:116-134 | the search for a split point ends, at the boundary between slices nearest to where it started |
| Leaf.NearerEnd | masstree/masstree_split.hh:119-132 | the loop of it |
| Leaf.SplitPoint | masstree/masstree_split.hh:109-134 | the split position separates different slices, and no such position is nearer to the middle, or to the end where keys arrive in order |
| Leaf.LeafIkey | masstree/masstree_split.hh:77-89 | the slice at a position of the combined sequence |
| Leaf.RightSlots | masstree/masstree_split.hh:136-143 | the slots copied to the right leaf are the combined sequence from the split position on |
| Reader.Perform | masstree/masstree_insert.hh:86-146 | a write that fits is done, with a split or without, and one that does not changes nothing; without a mark no slot a reader may trust changes and no trust ends |
| Reader.Writers | masstree/masstree_insert.hh:86-146 | neither does any number of them |
| Reader.SectionCounts | masstree/nodeversion.hh:108-120 | a section counts as marked in the version word exactly if it has a mark |
| Reader.Read | masstree/masstree_get.hh:32-52 | a reader that validates, with fewer than 2^19 marked sections meanwhile, saw slot by slot the entries of the moment it loaded the permutation |
| Internode.Node.Assign | masstree/masstree_struct.hh:131-135 | one key, the child to its right and that child's parent |
| Internode.Node.ShiftFrom | masstree/masstree_struct.hh:137-143 | keys and right children copied from another node, the rest untouched |
| Internode.Node.ShiftUp | masstree/masstree_struct.hh:144-148 | overlapping move up by one, the rest untouched |
| Internode.Node.ShiftDown | masstree/masstree_struct.hh:149-153 | overlapping move down by one, the rest untouched |
| Internode.Node.Insert | masstree/masstree_split.hh:197-202 | a node with room takes a key and child at a position |
| Internode.Node.Remove | masstree/masstree_remove.hh:196-198 | a key and the child to its right are gone |
| Internode.InternodeSplit | masstree/masstree_split.hh:22-75 | the new node and the key moved up are those of "insert, then cut at mid", for every position and split type |
| Internode.SplitInsert | masstree/masstree_split.hh:187-202 | with the insertion after it, both nodes are; every child of either has it as parent, all other parents stay, and a missing first child stays missing |
| Internode.SetParents | masstree/masstree_split.hh:64-65 | every child of the new node gets it as parent, other parents stay |
| Internode.Copied | masstree/masstree_split.hh:48-62 | the three copying cases all give what follows the cut |
| ParentLinks.Heap.FinishSplit | masstree/masstree_split.hh:167-238 | after a split carried upward as far as it goes, every parent field is right, every child lies between the separators of its slices, and every bottom node has the slices it had, the new one the upper part of the split one's |
| ParentLinks.Heap.Round | masstree/masstree_split.hh:167-238 | one round: the parent is done, or has split in turn, with the same slices below it |
| ParentLinks.Heap.TakeIn | masstree/masstree_split.hh:185-202 | the new child goes just after the node that split, with the new separator between them, and nothing else moves |
| ParentLinks.SearchFinds | masstree/masstree_split.hh:185 | the parent's search for the new separator ends at the node that split |
| ParentLinks.SeparatorsAscend | masstree/masstree_split.hh:185-202 | the separators of every node ascend strictly |
| ParentLinks.DescentEnds | masstree/masstree_traverse.hh:75-101 | the descent for any slice of a node ends at a bottom node responsible for it |
| ParentLinks.AttachRanged | masstree/masstree_split.hh:197-202 | taking in the new child closes the gap its split left |
| ParentLinks.CutRanged | masstree/masstree_split.hh:45-75 | cutting a node opens one at the key that moves up |
| ParentLinks.RootRanged | masstree/masstree_split.hh:173-183 | a new root closes it |
| ParentLinks.ArraysRefine | masstree/masstree_split.hh:187-202 | the arrays and parent fields after a full node's split are those of the new child and the cut |
| ParentLinks.AttachWired | masstree/masstree_split.hh:197-202 | taking in a new child keeps the parent fields right, at whatever position |
| ParentLinks.CutWired | masstree/masstree_split.hh:64-75 | cutting a node keeps them right; the new node has no missing child, so none is ever told its parent |
| ParentLinks.RootWired | masstree/masstree_split.hh:173-183 | so does a new root |
| Version.ChangeIsDetected | masstree/nodeversion.hh:70-73 | 1 to 2^19 - 1 marked sections since a stable read, or one still open, make `has_changed` true |
| Version.SplitIsDetected | masstree/nodeversion.hh:77-80 | a split among them makes `has_split` true |
| Version.ValidatedSawNoMark | masstree/nodeversion.hh:38-73 | a reader that validates overlapped no marked section |
| Version.BoundIsExact | masstree/nodeversion.hh:282-297 | 2^19 split sections go unnoticed |
| Version.CountsMove | masstree/nodeversion.hh:108-120 | how far a run moves both counters, carries from the insert to the split counter included |
| Version.UnlockMoves | masstree/nodeversion.hh:108-120 | how far one marked unlock moves them |
| Version.AddInsertAdds | masstree/nodeversion.hh:111-120 | the field-wise insert increment is the addition to the word, carry included |
| Version.AddSplitAdds | masstree/nodeversion.hh:111-120 | the same for the split increment |
| Version.UnlockRefines | masstree/nodeversion.hh:111-120 | addition and mask on the integer move the counters and clear the flags, carry and wrap-around included |
| Version.MarkRefines | masstree/nodeversion.hh:85-157 | so do lock and the marks, by setting or clearing their bits |
| Version.XorAbove | masstree/nodeversion.hh:70-83 | the exclusive or of two integers reaches a power of two exactly if they differ above it |
| Version.TestsRefine | masstree/nodeversion.hh:70-83 | `has_changed` and `has_split` on the integers are the field comparisons |
| Version.ValueInjective | masstree/nodeversion.hh:282-297 | the integer determines the fields |
| Version.MarkBits | masstree/nodeversion.hh:92-157 | lock and the marks change their own bits only, on any integer: deletion bits 29 and 2, the root marks bit 30 |
| Version.UnlockBits | masstree/nodeversion.hh:111-120 | `unlock` clears bits 0 to 2 and 28, and bit 30 exactly after a split, and keeps bits 29 and 31 |
| Version.UnlockCounts | masstree/nodeversion.hh:111-120 | the 25 counter bits go on by exactly one insertion or one split |
| Version.DeletedStays | masstree/nodeversion.hh:144-149 | over runs, bit 29 is set from the deletion on |
| Version.LeafStays | masstree/nodeversion.hh:108-157 | over runs, bit 31 never changes |
| Version.NodeVersion.Do | masstree/nodeversion.hh:85-158 | the integer, changed in place with the masks, stays below 2^32, has the fields of the word, and every bit and counter is what the operation is to make of it |
| Version.NodeVersion.Changed | masstree/nodeversion.hh:70-73 | `has_changed` on the integer tells whether a field other than the lock differs |
| Timestamps.CircularIsOrder | masstree/circular_int.hh:115-120 | on timestamps less than 2^63 apart, `less` is the order of the unwrapped numbers |
| Timestamps.Store.UpdateTimestamp | masstree/kvthread.hh:321-326 | the result is even and later than the row's timestamp, marker or not, and is the clock or at most 2 above |
| Timestamps.Store.AdvanceTimestamp | masstree/kvthread.hh:338-341 | the clock is not before the leaf's timestamp |
| Timestamps.Store.Put | masstree/masstree.cc:117-126 | logs one record with a later timestamp than any before on the key; a modify names the live row's, and only then is one logged; the stored row has the change's columns, and the old ones where it has none |
| Timestamps.Store.Replace | masstree/masstree.cc:128-136 | the same for a replacement, which leaves the one column |
| Timestamps.Store.Remove | masstree/kvrow.hh:362-379 | the same for a removal; the leaf's timestamp ends above it |
| Timestamps.Store.Commit | masstree/log.cc:328-334 | one more record keeps the key's log a well-formed history whose in-order row is the stored row |
| Timestamps.Store.ForkLeaf | masstree/masstree_split.hh:160-161 | a leaf made by a split or for a new layer starts with the old leaf's timestamp |
| Timestamps.Store.DeleteLeaf | masstree/masstree_remove.hh:163-174 | the leaf that takes over a deleted leaf's keys takes over its timestamp |
| Timestamps.Store.Restart | masstree/mtd.cc:1497-1508 | rows rebuilt from the logs keep all this, although clocks and leaves start anew |
| Timestamps.Run | masstree/masstree.cc:117-168 | all of it after any run by any threads |
| Timestamps.StoredColumns | masstree/kvrow.hh:311-379 | the stored row holds just what the operations on the key wrote last |
| Timestamps.KeyTimestamps | masstree/kvrow.hh:299-379 | per key: even, strictly increasing timestamps; a live row has the last one; a modify names the operation just before it |
| Timestamps.ReplayRebuildsRow | masstree/log.hh:304-380 | the logs of a run, replayed in any order, give back what a reader saw |
| NodeTimestamps.NodeTsKept | masstree/masstree_remove.hh:161-177 | a removed key below its leaf's timestamp stays so through a step exactly if the step is none of the three that lose it |
| NodeTimestamps.CoveredExactly | masstree/masstree_remove.hh:161-177 | in a run of any threads all removed keys are so all the time if and only if no step is |
| NodeTimestamps.ReinsertedLater | masstree/kvrow.hh:311-379 | a re-insertion is later than the removal exactly if the thread's clock or the leaf's timestamp is past it |
| NodeTimestamps.HistoriesExactly | masstree/masstree.cc:117-168 | in a run of any threads all logs are histories all the time if and only if no re-insertion is late |
| NodeTimestamps.HistoriesWithoutLoss | masstree/masstree.cc:117-168 | if no step loses a key, none is, whatever the clocks are |
| NodeTimestamps.CalmHistories | masstree/masstree_remove.hh:161-177 | nor if nobody writes a leaf's timestamp between the accesses of a removal, split or deletion, and no leaf comes before a deleted one after its check |
| NodeTimestamps.RunRemembers | masstree/masstree_remove.hh:163-174 | in every run, what an operation in progress has read or checked is still so unless somebody has written meanwhile |
| NodeTimestamps.RunShape | masstree/masstree_split.hh:156-165 | what every step may rely on: a leaf for each key, locks, even timestamps, removals of live keys |
| NodeTimestamps.NodeTsLost | masstree/kvrow.hh:374-376 | a run that loses a merge to a removal's write |
| NodeTimestamps.LostToNewLeaf | masstree/masstree_split.hh:160-164 | a run that unlinks toward a leaf copied before the merge |
| NodeTimestamps.LostByLink | masstree/masstree_split.hh:160-164 | a run that links such a leaf after the unlink |
| NodeTimestamps.LostToPredecessor | masstree/masstree_remove.hh:163-177 | a run of two adjacent deletions, the left leaf unlinked first |
| NodeTimestamps.LostWithPredecessor | masstree/masstree_remove.hh:163-177 | the same with the right leaf unlinked first |
| LogCodec.ReadPrefix | masstree/log.cc:423-464 | on any byte prefix of a log, repeated `extract` gives exactly the whole records and stops |
| LogCodec.ReadBack | masstree/log.cc:423-464 | a whole log is read back as written |
| LogCodec.ExtractStored | masstree/log.cc:92-145 | a stored record is read back whatever follows it and whatever its padding holds |
| LogCodec.ExtractCut | masstree/log.cc:427-435 | a record with its last byte missing is not read at all |
| LogCodec.FieldRead | masstree/log.cc:39-145 | each header field is read back at its offset |
| LogCodec.Log.Store | masstree/log.cc:46-136 | a store appends one encoded record inside the buffer |
| LogCodec.Log.Record | masstree/log.cc:286-340 | nothing without room for everything; else the epoch and wake records when due, then the operation with its key, value and timestamps, as a modify exactly when a put names an even, non-zero previous timestamp; all epoch fields |
| LogCodec.Log.Announce | masstree/log.cc:298-326 | the epoch and wake records and the log's epoch fields |
| LogCodec.Log.LoggerRound | masstree/log.cc:239-275 | a quiescence notification exactly when one is due, everything recorded goes to the file, the buffers change places |
| LogCodec.RecordedIsRead | masstree/log.cc:286-464 | what is read from a log's file and buffer is what was recorded |
| Durability.Durable | masstree/log.cc:553-613 | what all logs hold for a key, replayed in any order, is the row a reader saw, if and only if the key is not empty or there was none |
| Durability.EmptyKeyLost | masstree/log.cc:591 | a row with the empty key of which no log has a replayable record |
| Durability.KeyRecovers | masstree/log.hh:304-380 | the entries of a key in all logs, each once in any order, make the in-order row |
| Durability.TraceMirrors | masstree/mtd.cc:1108 | the entries in the logs and the operations on keys that are not empty correspond one to one |
| Durability.Serve | masstree/mtd.cc:306-340 | any run of requests: every operation makes one call that stands for it, and the store's histories are the calls by key |
| Durability.PerformPut | masstree/mtd.cc:315-325 | a put's call is a modify of the live row before it, or a plain put |
| Durability.PerformReplace | masstree/mtd.cc:306-313 | a replacement's call is a put of one column, whatever was before |
| Durability.PerformRemove | masstree/mtd.cc:332-339 | a removal is logged exactly if it removed something |
| Durability.WriteLog | masstree/log.cc:232-340 | what recovery reads from a log's bytes are the calls of its threads in order, with the logger at work in between, if each fits |
| Durability.WriteTo | masstree/log.cc:286-340 | a call's record is written, after a wait for the logger if there is no room, exactly if it fits into an empty buffer |
| Durability.RecordEntries | masstree/log.cc:562-608 | the records of a call add its one entry: an epoch comes first, and an empty key adds none |
| ObjectJson.Table.FindInsert | masstree/json.cc:136-159 | an existing key's index and no change, or a new last item; chains stay linked |
| ObjectJson.Table.GetInsert | masstree/json.hh:440-443 | the same, starting with the null value |
| ObjectJson.Table.EraseKey | masstree/json.cc:198-211 | exactly that key is gone, the order of the others stays |
| ObjectJson.Table.EraseAt | masstree/json.cc:186-196 | the same by index |
| ObjectJson.Table.WalkTo | masstree/json.cc:187-191 | the walk along the bucket's chain always reaches the item |
| ObjectJson.Table.Walk | masstree/json.cc:140-144 | the search ends at the key or at the end of its chain |
| ObjectJson.Table.FindKey | masstree/json.hh:427-438 | the index of a key, or -1 exactly if it is not there |
| ObjectJson.Table.Rehash | masstree/json.cc:123-134 | twice the buckets, same items, chains in ascending order again |
| ObjectJson.LinkedAppend | masstree/json.cc:147-154 | a new item at the end of its chain keeps every chain the ascending list of its bucket's live items |
| ObjectJson.LinkedErase | masstree/json.cc:187-195 | so does unlinking an item |
| ObjectJson.LiveErased | masstree/json.cc:186-211 | erasing a slot drops just its key from the contents |
| Client.Client.StartReq | harness/client.cpp:203-229 | a fresh id goes in flight |
| Client.Client.Transmit | harness/client.cpp:551-573 | nothing is sent beyond warmup + max |
| Client.Client.CountSent | harness/client.cpp:583-590 | the sent counter follows the transmission |
| Client.Client.FiniReq | harness/client.cpp:330-390 | the request leaves the in-flight map, its sample is the next of the measurements, of which the vectors hold those after the warmup, in order |
| Client.Client.StartRoi | harness/client.cpp:392-416 | its assertion holds whenever it is reached, and all vectors are empty after it |
| Client.Accounting | harness/client.cpp:203-416 | completed, sent and total are ordered up to a send in progress; in flight are the started ids not answered; what is dumped are the max measurements after the warmup |
| Client.CompletedIsSent | harness/client.cpp:551-590 | completed <= sent fails exactly while a send is in progress and everything transmitted has been answered |
| Client.CompletedBeforeCounted | harness/client.cpp:565-584 | a run in which a response is counted before its request |
| Client.Run | harness/tbench_client_networked.cpp:33-119 | the invariant holds in every interleaving, and the vectors dumped are the samples of the answers after the warmup, in order |
| Server.ChosenInTime | harness/tbench_server_networked.cpp:348-360 | a client that stays ready is chosen within as many passes as there are clients, from any head |
| Server.ChoiceNearest | harness/server.h:77-82 | a ready client is passed over only for one nearer to the head |
| Server.Receiver.Select | harness/tbench_server_networked.cpp:348-360 | the loop's choice, and the head moves on by one |
| Server.Receiver.RemoveClient | harness/tbench_server_networked.cpp:155-159 | just the first occurrence goes |
| Server.HeadMoves | harness/tbench_server_networked.cpp:360 | where the head is after some passes |

## Left out

- Weak memory, fences, prefetching and allocation: atomic steps under sequential consistency only.
- The lock-free change of a slot from value to layer (masstree/masstree_insert.hh:72-76): sequential only.
- Reader.Read: its writers insert, remove and split; replacing the value of a live slot, which a reader may see or not, is not among them.
- Concurrent readers and writers of the tree (`reach_leaf` and `forward_at_leaf` retries, `get_leaf_locked` walking right): a reader within one leaf is in `Reader`, and is not put together with the descent.
- RCU reclamation and `gc_layer`: emptied layers stay in the model.
- Parent pointers while leaves are removed: `Tree` works on values with a path of ancestors; parents are proved for splits, in `Internode` and `ParentLinks`.
- NodeTimestamps: restarts, and the steps inside linking and unlinking a leaf, which `LeafLink` has; replacements, which take their timestamps as puts do.
- Update in place of tree nodes: `Tree`, `Layers` and `Scan` return new trees; in-place array code is in `Internode`, `Leaf` and `Permuter`.
- Scan.ScanForward: leaves out the limit on key length, which only cuts the result short.
- Layers.InsertKey: whether a leaf with 14 entries splits is left open, because the value model does not keep slot numbers.
- Reverse scans, checkpoint files, recovery phases, and the epoch limits between which recovery replays a log.
- LogCodec.Log.Record: does not model the wait list, the stall loop and concurrent updates of the global wake epoch; `Durability.WriteTo` waits for one round of the logger.
- Durability.WriteLog: timestamps of 64 bits and records longer than a buffer allows are a condition; the code wraps around or waits for ever.
- Key-suffix bags, row encodings and changesets: not part of this model; a suffix is a field and a row a column map.
- Duplicate delivery of a modify record that is still parked.
- `kpermuter::rotate`, `insert_selected` and `exchange_values`.
- JSON parsing and printing, iterators and reference counts.
- Sockets, files, clocks, options, statistics printing, workload drivers and everything in `img-dnn/`.

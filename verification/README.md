# Crash-safe pages: a model of the ams storage engines

The project models the page-level core of `ams` in Dafny: a Blink B+Tree whose splits are three log records (Prepare,
Copy, Commit), a heap with row locks, HOT chains and vacuum, the recovery of both, bottom-up bulk load, the HNSW
reachability audit, and the heap tuple codec.

| modules | what they model |
|---|---|
| `Entries`, `KeyCodec`, `Layout`, `BtPages`, `BtLog`, `Chains` | entries and their one order, the key encoding, page layout, B+Tree pages, the log, a level as its sibling chain |
| `SplitPoint`, `Lookup`, `Placement`, `Descent` | where to split, readers, where a new entry goes, descents |
| `TreeShape`, `TreeOrder`, `Fences`, `PageAlloc`, `TreeInsert`, `Ties` | the tree and what each logged step keeps of it: naming, order, the key range of every page; inserts and deletes; a tree with equal keys that refuses one |
| `SplitRedo`, `SplitWriter` | redo over any mix of durable page versions; the writer and allocator that produce such logs |
| `SplitWindow`, `SplitClr`, `UndoSteps`, `UndoTidy`, `UndoFences`, `SplitUndo`, `UndoCases` | what a crash inside a split leaves, undo that finishes it, and trees it cannot finish |
| `CommitImages` | full page images against the split Commit, all interleavings |
| `SlottedPages`, `HeapRedo`, `HotChains`, `HeapChains`, `Reclaim`, `RowLocks` | the heap |
| `BulkLoad`, `Reachability`, `TupleCodec`, `FiniteSets` | the self-contained algorithms |

A page on disk is a version of that page: its content after some prefix of the log. A crash keeps one version per page,
chosen independently within the flush order, and every recovery result is stated for all such choices. The buffer pool,
the log writer and the allocator appear as the steps they can take. Code that changes pages, registries or chains in
place is a class with methods; its results are tied to functions of the old state, and the properties are proved about
those functions and states.

A tree has ranges (`Fences.Fenced`) if every page has a lower bound such that everything left of it on its level sorts
below the bound, nothing on it or right of it does, and every downlink carries exactly the bound of its child.

## Model

| member | source | states |
|---|---|---|
| `Entries.LowerBound` | crates/pg-am-btree/src/index.rs:3029-3122 | On a sorted page the binary search returns the first slot whose entry is not below the probe in full (key, trailer) order; it is total on any page. |
| `Entries.LowerBoundUnique` | crates/pg-am-btree/src/index.rs:3029-3042 | Two lower bounds of one probe in a sorted page are equal, so the search result is determined. |
| `Entries.SortedUnique` | crates/pg-am-btree/src/index.rs:3196-3224 | Two strictly sorted sequences with the same members are equal: an entry set fixes the leaf sequence. |
| `Entries.KeyLexicographic` | crates/pg-am-btree/src/key.rs:1-17 | The key comparison is byte-wise lexicographic order: a proper prefix, or a smaller byte at the first difference. |
| `KeyCodec.IntKeyOrder` | crates/pg-am-btree/src/key.rs:93-113 | The sign-flipped big-endian form of a signed integer of any width sorts as the integer does and decodes to it. |
| `KeyCodec.TextLess` | crates/pg-am-btree/src/key.rs:13-14 | UTF-8 byte order is code point order, for every two sequences of code points. |
| `KeyCodec.KeysOrder` | crates/pg-am-btree/src/key.rs:39-91 | For every supported column type encoded keys sort exactly as the values do and decode to them. |
| `KeyCodec.KeysAccepted` | crates/pg-am-btree/src/key.rs:39-62 | Encoding refuses exactly the unsupported types and the strings over the key bound. |
| `SplitPoint.ChooseSplitSlot` | crates/pg-am-btree/src/index.rs:3152-3194 | The slot lies in [1, count); without a pending entry it is the median; with one it is the slot nearest the median at which both halves, the pending entry on its side, fit a fresh page; it fails below two entries and never on a page whose keys are within the bound. |
| `SplitPoint.SplitExists` | crates/pg-am-btree/src/key.rs:22-28 | Two or more entries within the key bound that fit a page always have such a slot for any pending entry within the bound. |
| `SplitPoint.ReservedHalfIsChosen` | crates/pg-am-btree/src/index.rs:3174-3182 | For an absent pending entry the half the split point reserved is the half the later comparison picks. |
| `SplitPoint.ReservedHalfOfPresent` | crates/pg-am-btree/src/index.rs:3174-3182 | For a present one the two agree exactly when the first entry of the right half is not the entry itself. |
| `Lookup.Locate` | crates/pg-am-btree/src/index.rs:898-1112 | From any leaf of a sorted chain with drained leaves and stale prev hints the walk terminates; unless it reports the hop bound it ends on the page that holds the probe's position, and short or bulk-loaded chains never reach the bound. |
| `Lookup.LookupAll` | crates/pg-am-btree/src/index.rs:630-676 | From any leaf: exactly the TIDs a linear filter of the whole chain finds for the key, in chain order. |
| `Lookup.LookupFirst` | crates/pg-am-btree/src/index.rs:584-628 | From any leaf: the first TID of that filter, or none when no entry has the key. |
| `Lookup.RangeScan` | crates/pg-am-btree/src/index.rs:678-726 | From any leaf: exactly the entries with start <= key < end, either side open. |
| `Placement.NearestNonEmptyLeft` | crates/pg-am-btree/src/index.rs:1376-1414 | The nearest non-empty page between the prev hint and the page, or none if all of those are drained. |
| `Placement.Place` | crates/pg-am-btree/src/index.rs:1485-1725 | Within the hop bound, right walk and the walk back to the start included, an absent pair lands where the whole chain stays strictly sorted if and only if the start does not blind the leftward search; a present pair is refused exactly when in addition it is not the last entry of a page left of the start. From the page of the pair's position it never leaves that page, and on a chain of up to 16384 pages never meets the bound. |
| `Placement.SortedIffPosition` | crates/pg-am-btree/src/index.rs:1485-1725 | Putting an absent entry at its lower bound on a page keeps the chain sorted if and only if that page is its position. |
| `Placement.ReachingHintsNeverBlind` | crates/pg-am-btree/src/index.rs:1350-1371 | If every prev hint reaches a non-empty page whenever one exists to its left, no start blinds the search. |
| `Placement.DrainedHintBlinds` | crates/pg-am-btree/src/index.rs:1376-1414 | Finding: three leaves of one key's duplicates, the middle one drained, and a start from which a smaller TID is put behind a larger one. |
| `Placement.InsertKeepsHints` | crates/pg-am-btree/src/index.rs:1350-1371 | An insert keeps every hint that sees entries; it keeps all hints reaching exactly when it does not fill a drained page that the hint of a later page, with nothing before it, bypasses. |
| `Placement.InsertLosesHints` | crates/pg-am-btree/src/index.rs:1350-1371 | Finding: three drained leaves on which an insert leaves such a hint. |
| `Descent.FindChild` | crates/pg-am-btree/src/index.rs:3230-3252 | The last separator at or below the probe's key, else entry 0; an error exactly on an empty page. |
| `Descent.WalkInternal` | crates/pg-am-btree/src/index.rs:898-1112 | The walk on an internal level ends on a page of the level, never with an error on a level of up to 150 pages, and on the page it starts from if that page has the key in its range. |
| `Descent.WalkLeaf` | crates/pg-am-btree/src/index.rs:921-1112 | The insert walk on the leaves terminates where nothing further right starts at or below the probe, and its end blinds placement, or hides a duplicate from it, exactly if its start does; from the page of the probe's position it stays. |
| `Descent.DescendForInsert` | crates/pg-am-btree/src/index.rs:783-864 | The read descent with that walk ends on such a leaf of the chain. It succeeds on every tree without a split in flight, without an empty page above the leaves and with levels of up to 150 pages, and on every tree with ranges, separators in order and up to 16384 leaves, where the leaf it ends on is the one with the key in its range. |
| `Descent.DescendToLocate` | crates/pg-am-btree/src/index.rs:742-864 | The locating descent ends on the page of the probe's position, and succeeds on every tree without a split in flight, without an empty page above the leaves and with levels of up to 150 pages. |
| `Descent.DescendWritePath` | crates/pg-am-btree/src/index.rs:1854-2080 | The write descent restarts, or returns one page of every level, each naming the next, above an unmarked leaf right of which nothing starts at or below the probe. On a tree with ranges it never restarts: the path leads, page by page, to the leaf with the key in its range. It never returns a path if no page it can settle on names the probe's leaf or a page to turn left on. |
| `Descent.ReinsertAccepted` | crates/pg-am-btree/src/index.rs:1485-1725 | Finding: two leaves of one key's duplicates and a start on the second, from which walk and placement accept the pair the first leaf ends with once more. |
| `TreeShape.PrepareKeeps` | crates/pg-am-btree/src/index.rs:2340-2440 | Prepare keeps the tree well formed: geometry, links and levels, and every page named exactly once, by one downlink or by its marked left twin. |
| `TreeShape.CopyKeeps` | crates/pg-am-btree/src/index.rs:2451-2513 | So does Copy. |
| `TreeShape.CommitKeeps` | crates/pg-am-btree/src/index.rs:2164-2238 | So does Commit, which trades the twin's mark for a downlink. |
| `TreeShape.NewRootKeeps` | crates/pg-am-btree/src/index.rs:2612-2648 | So does a root promotion over a marked root. |
| `TreeShape.UnlinkKeeps` | crates/pg-am-btree/src/index.rs:3400-3515 | So does taking an empty right twin out of its chain. |
| `Fences.PrepareFenced` | crates/pg-am-btree/src/index.rs:2340-2440 | Prepare keeps the ranges; the new right page shares its left twin's. |
| `Fences.CopyFenced` | crates/pg-am-btree/src/index.rs:2451-2513 | Copy keeps them. |
| `Fences.CommitFenced` | crates/pg-am-btree/src/index.rs:2164-2238 | A Commit with the right page's first key, in the page with that key in its range, keeps them if no run of equal keys was cut, and gives the right page that key as its bound. |
| `Fences.FencedCutsClean` | crates/pg-am-btree/src/index.rs:2164-2238 | No other Commit does: if the right page is linked by its first key in a tree with ranges, everything on the left page sorts below that key. |
| `Fences.ReadyToCommit` | crates/pg-am-btree/src/index.rs:2207-2238 | In a tree with ranges the page that names the left half, and the separator's slot on it, are where a Commit keeps the ranges. |
| `Fences.ChildInRange` | crates/pg-am-btree/src/index.rs:3230-3252 | From a page with a key in its range the child rule leads to the page of the level below with the key in its range. |
| `Fences.UnlinkFenced` | crates/pg-am-btree/src/index.rs:3400-3515 | Taking an empty right twin out of its chain keeps the ranges. |
| `TreeOrder.CommitNeat` | crates/pg-am-btree/src/index.rs:2164-2238 | A Commit with a non-empty separator at its slot keeps every separator page sorted, no separator empty but the first of a level, and the root flag only on the root or a marked page. |
| `TreeOrder.PromoteNeat` | crates/pg-am-btree/src/index.rs:2612-2648 | So does a root promotion. |
| `TreeOrder.LeafDeleteKeeps` | crates/pg-am-btree/src/index.rs:2715-2719 | A leaf delete keeps the tree and the leaf order and takes exactly one entry out of the leaf sequence. |
| `TreeInsert.BTreeIndex.Create` | crates/pg-am-btree/src/index.rs:452-494 | A new index is a quiescent empty tree, in order and with ranges, with its log. |
| `TreeInsert.BTreeIndex.SplitPage` | crates/pg-am-btree/src/index.rs:2340-2513 | Prepare and Copy cut the page in two around the pending entry, keep the level's entry sequence, and fail exactly on a marked page or one with fewer than two entries, touching nothing. |
| `TreeInsert.BTreeIndex.SplitCommit` | crates/pg-am-btree/src/index.rs:2086-2239 | The Commit cascade through any number of parent splits up to a new root leaves no page of its level or above marked, the levels below untouched and the downlink with its separator above. A path whose last page does not name the left page is refused with nothing written; on a path that leads there from the root, separators in order, it succeeds unless the tree is at its level limit. In a tree in order with ranges, finishing a split of two non-empty halves by the right half's first key keeps the ranges if and only if no run of equal keys was cut. A promotion leaves a root with exactly the old root and the right page. |
| `TreeInsert.BTreeIndex.CreateNewRoot` | crates/pg-am-btree/src/index.rs:2612-2648 | A new root naming only the old one, refused exactly at the four-bit level limit. |
| `TreeInsert.BTreeIndex.InsertPessimistic` | crates/pg-am-btree/src/index.rs:1736-1838 | One pass: done with the entry in place, or a retry with the leaf sequence unchanged, no hint and no room worse. It fails for lack of a split point, before anything is logged, if and only if the leaf its descent ends on lacks the entry and the room for it and has fewer than two entries. In a tree with ranges that leaf is the one with the key in its range, and the only other errors are a duplicate and the level limit. |
| `TreeInsert.BTreeIndex.InsertOptimistic` | crates/pg-am-btree/src/index.rs:1153-1170 | An absent entry placed from the leaf the descent ends on keeps the leaf order if and only if that leaf does not blind placement; a present one is accepted only from a leaf that blinds it or lies right of the page the entry ends, and refused only from another. No room means some leaf is full; in a tree with ranges, the leaf with the key in its range, and the attempt does not fail but for a duplicate. |
| `TreeInsert.BTreeIndex.InsertEntry` | crates/pg-am-btree/src/index.rs:1136-1196 | Ok means the old leaf sequence with the entry inserted and no page marked, sorted for an absent entry while hints reach; a present entry is then accepted only if it is the last of its leaf; keys over the bound are the only ones too large. Seen hints, order above the leaves and the log stay. In a tree in order with ranges and no key twice, a new key with no leaf wedged for it is inserted within ten restarts, or the tree is at its level limit, and it stays such a tree; whatever keys repeat, so is, in one pass, an absent pair that sorts between two entries of one leaf. With room on every leaf and levels of up to 150 pages only a duplicate or an oversized key is an error; a one-leaf tree refuses an absent entry if and only if the leaf is wedged. If no leaf has room and no page the descent settles on names the pair's leaf, it fails whatever the budget. |
| `TreeInsert.BTreeIndex.InsertAll` | crates/pg-am-btree/src/index.rs:1136-1196 | Any number of distinct absent entries inserted one after another: on success the leaf sequence is sorted and has exactly the old and the new entries, no page is marked, every prev hint still sees entries and the log still gives the pages. Into a tree in order with ranges, no key twice and no dead bytes on its leaves - a new index, or one bulk-loaded with distinct keys - distinct new keys all go in and it stays such a tree, unless it has 16374 leaves or is at its level limit. |
| `TreeInsert.BTreeIndex.DeleteEntry` | crates/pg-am-btree/src/index.rs:2687-2720 | Exactly that entry leaves the leaf sequence; not found only if it is absent; order, ranges and log stay. Without an empty page above the leaves and with levels of up to 150 pages it succeeds if and only if the pair is present. |
| `TreeInsert.DeleteUndoesInsert` | crates/pg-am-btree/src/index.rs:2687-2720 | Deleting what was inserted restores the leaf sequence. |
| `TreeInsert.OneDownlinkEach` | crates/pg-am-btree/src/index.rs:2726-2760 | Without a split in flight every page below the top is named by exactly one downlink, from the level directly above, and the root is alone on top. |
| `TreeInsert.NewRootOrder` | crates/pg-am-btree/src/index.rs:2120-2145 | The root page a promotion and its Commit leave is sorted if and only if the separator is not empty or the right page has the larger id. |
| `TreeInsert.EmptySeparator` | crates/pg-am-btree/src/index.rs:2120-2145 | Finding: on an index of entries with empty keys in a file with a page given back, the split onto that page leaves a root out of order. |
| `TreeInsert.DeadSpaceWedges` | crates/pg-am-btree/src/key.rs:22-28 | Finding: a log of seven records the index writes - a leaf filled with three keys of the largest size and drained again - ends in a quiescent empty tree in which a key is refused for lack of a split point exactly if it has seven bytes or more. |
| `TreeInsert.DrainedRefuses` | crates/pg-am-btree/src/index.rs:1136-1196 | On that index `InsertEntry` fails for every such key and succeeds for every shorter one. |
| `Ties.TieTree` | crates/pg-am-btree/src/index.rs:176-187 | Leaves 2, 5 and 3 full of one key, downlinks to 3 and 5 on two pages in that order: a well-formed tree in order, nothing in flight, every hint seeing entries. |
| `Ties.TieRefused` | crates/pg-am-btree/src/index.rs:2029-2048 | Finding: on that tree an insert of an absent pair of the key, no leaf being wedged, fails for every restart budget and writes nothing. |
| `SplitRedo.Recovery.Replay` | crates/pg-am-btree/src/redo.rs:87-399 | From any redo start, over any durable versions the flush order allows and any write-backs of the buffer pool during replay, redo fails if and only if some Copy's moved entries are in no image left; otherwise every page ends exactly as the writing run left it and the tracker names exactly the splits without a Commit. |
| `SplitRedo.Recovery.ApplyCopy` | crates/pg-am-btree/src/redo.rs:212-343 | The Copy handler branch by branch: rebuild, adopt the pooled or on-disk right page, skip, or fail. |
| `SplitRedo.NothingLost` | crates/pg-am-btree/src/redo.rs:212-343 | If no page is the right page of two Copies and no right page is written back between the replay of its image and of its Copy, nothing is lost, whatever was durable. |
| `SplitRedo.LostExactly` | crates/pg-am-btree/src/redo.rs:237-272 | Then a Copy fails if and only if replay finds the left page past it and the right page was written back in between. |
| `SplitRedo.RestartableAnywhere` | crates/pg-am-btree/src/redo.rs:334-341 | A crash of the replay itself at any record, with any such write-backs, leaves durable versions that again respect the flush order, and the next replay loses nothing. |
| `SplitRedo.RecycledTwiceLosesEntries` | crates/pg-am-btree/src/redo.rs:334-341 | What would break if tree pages were ever freed: a log with one page as right page of two splits on which the second Copy finds its entries nowhere, without any eviction. No code path frees a tree page. |
| `SplitWriter.WrittenOnce` | crates/pg-am-btree/src/index.rs:2340-2513 | In every log the index writes while sharing the allocator with a heap that frees pages, no page is the right page of two splits. |
| `SplitWriter.CrashLeaves` | crates/pg-am-btree/src/index.rs:2478-2496 | Whatever is flushed when, a crash leaves durable versions that respect the flush order replay needs, for every redo point. |
| `SplitWriter.RecoversAnything` | crates/pg-am-btree/src/redo.rs:87-399 | So for every run of writer, heap and flushes and every redo point, replay loses no moved entry and may crash and start over anywhere. |
| `SplitWriter.EvictionLosesEntries` | crates/pg-am-btree/src/redo.rs:237-272 | Finding: one split, all of it flushed, whose right page is evicted right after its image is replayed: the Copy then finds the moved entries nowhere. |
| `SplitWindow.CrashAwaits` | crates/pg-am-btree/src/index.rs:3400-3515 | Every run of Prepares, Copies, Commits, promotions, leaf inserts and deletes from a quiescent sorted tree ends in the state undo starts from: tree well formed, leaves sorted, every marked page followed by its unmarked, ordered twin that no hint names. |
| `SplitWindow.CrashTidy` | crates/pg-am-btree/src/index.rs:3400-3515 | If the tree was in order, every such run in which Commits use their own separators leaves it in order for undo: separators sorted, none empty but the first of a level, above the leaves the root flag only on the root or a marked page. |
| `SplitWindow.CrashRanged` | crates/pg-am-btree/src/index.rs:2164-2238 | If the tree had ranges, every such run whose Commits go to the page naming the left half, with the right half's first key and no run of equal keys cut, and whose inserts go to the leaf with the key in its range leaves it with ranges for undo. |
| `SplitWindow.CrashInPromotion` | crates/pg-am-btree/src/index.rs:2612-2648 | After any run with a promotion whose old root sees no Commit afterwards, undo can succeed only if the old root's twin is drained. |
| `SplitClr.ReapplyConverges` | crates/pg-am-btree/src/index.rs:3785-3933 | A compensation record applied again over any mix of its pages before and after, right page durable first, reaches the same pages. |
| `SplitClr.RefusedExactlyWhenLost` | crates/pg-am-btree/src/index.rs:3785-3933 | Over any mix at all it is refused if and only if the moved entries are in neither page. |
| `SplitClr.CutAtOwn` | crates/pg-am-btree/src/index.rs:3785-3933 | A Move replayed over a filled right page cuts the left page at exactly the original copy slot. |
| `SplitUndo.UndoPass.FindParent` | crates/pg-am-btree/src/index.rs:3984-4022 | A page of the level above that names the child, or an error only if nothing there does. |
| `SplitUndo.UndoPass.EnsureDownlinkSlot` | crates/pg-am-btree/src/index.rs:3516-3592 | A page above with room and the slot in order, splitting upward as needed: the parent, or the half of it the comparison picks. In a tree in order ranges stay; every failure is one of those named under `Undo`. |
| `SplitUndo.UndoPass.SplitPageInUndo` | crates/pg-am-btree/src/index.rs:3594-3691 | A parent cut in two and both halves linked, entries kept, nothing below touched; in a tree in order ranges stay. |
| `SplitUndo.UndoPass.Abandon` | crates/pg-am-btree/src/index.rs:3400-3515 | A drained right page is unlinked; this never fails and keeps ranges. |
| `SplitUndo.UndoPass.FinishRoot` | crates/pg-am-btree/src/index.rs:3400-3515 | A marked root gets a new root above it if and only if the meta page names it and a level is left; no other error. The pages then hold their parts of the split and the downlink has the given separator. |
| `SplitUndo.UndoPass.FinishLink` | crates/pg-am-btree/src/index.rs:3400-3515 | Any other marked page: mark off, each page with its part of the split, right page linked once and with the given separator, level's entries kept; never fails for want of a parent. |
| `SplitUndo.UndoPass.FinishIncompleteSplit` | crates/pg-am-btree/src/index.rs:3400-3515 | Move, NoMove or Unlink by the right page's content. In every tree, a right page that was not drained has entries afterwards and the level above names it by its first key; in a tree in order with ranges and something left on the left page, ranges stay if and only if no run of equal keys was cut. It has nothing to move if and only if a move is owed and the slot is outside the left page; it fails on a page that claims to be a root the meta page does not name unless the right page is drained; any other failure needs unsorted separators or the last level. A drained right page is unlinked and leaves the claim on the then unmarked page. |
| `SplitUndo.UndoPass.UndoOne` | crates/pg-am-btree/src/undo.rs:60-110 | Succeeds only on a page with a usable slot or two entries whose root flag, if any, is the meta page's or whose twin is drained, and fails on such a page only above unsorted separators or at the last level. The right page, if not drained, is then named by its first key. |
| `SplitUndo.UndoPass.Undo` | crates/pg-am-btree/src/undo.rs:47-180 | In a tree in order with levels to spare undo succeeds if and only if every marked page can be cut and, if it claims to be the root, is the one the meta page names or has a drained twin. Then no page is marked, the leaf sequence is unchanged, every page is named once and the tree is in order again; if it had ranges, no key twice and no marked leaf empty, it has ranges again. A marked leaf that claimed to be the root under other levels keeps the claim. |
| `UndoFences.InnerSharp` | crates/pg-am-btree/src/index.rs:3400-3515 | Above the leaves of a tree with ranges no interrupted split cuts a run of equal separators. |
| `UndoFences.ChosenNames` | crates/pg-am-btree/src/index.rs:3516-3592 | In a tree with ranges the half of a split parent that the comparison with the downlink picks is the half that names the left page. |
| `UndoTidy.RestartsAfter` | crates/pg-am-btree/src/undo.rs:47-180 | Between two pages the pass can be cut off: the tree is again one undo starts from, and what could be undone still can. |
| `UndoTidy.RestartsInside` | crates/pg-am-btree/src/index.rs:3516-3691 | So it can while parents are split to make room for one page, after any of those splits. |
| `UndoCases.PromotionLost` | crates/pg-am-btree/src/index.rs:2612-2648 | Finding: one leaf after Prepare, Copy and promotion, and a crash before the Commit; undo fails whatever redo knows of the split. |
| `UndoCases.ScanFound` | crates/pg-am-btree/src/undo.rs:69-80 | Finding: a one-entry leaf whose split was copied in full; undo succeeds if and only if redo knows the split. |
| `UndoSteps.RightLinkedOnce` | crates/pg-am-btree/src/index.rs:3400-3691 | After a finish a right page that was not drained has exactly one downlink. |
| `CommitImages.OnlyNewRootsEscape` | crates/pg-am-btree/src/index.rs:2120-2238 | In every interleaving of splits that cascade to any height, writers, write descents, checkpoints and flushes, an image placed after a Commit of its page lacks that Commit if and only if some writer imaged the new root of a promotion between the append of its Commit and the write of its downlink. |
| `CommitImages.NoImageLacksACommit` | crates/pg-am-btree/src/index.rs:2164-2238 | So none does without a root promotion. |
| `CommitImages.ReplayKeepsCommits` | crates/pg-storage/src/buffer_pool.rs:355-480 | On such a log unconditional image replay with LSN-guarded records keeps every Commit on both its pages. |
| `CommitImages.RootPromotionEscapes` | crates/pg-am-btree/src/index.rs:1899-1911 | Finding: a run with a root promotion, pre-touched as the code does, in which the new root is flushed after the append and an image lacks the Commit. |
| `RowLocks.HeapRows.RowLockGate` | crates/pg-am-heap/src/heap_am.rs:897-1043 | The gate that looks at one holder after another reaches that verdict and leaves that registry, for every stamp, request and view of transaction states. |
| `RowLocks.GateDecides` | crates/pg-am-heap/src/heap_am.rs:897-1043 | Every verdict from the holders alone: the pass waits exactly while another that looks live blocks it, on the smallest such; a lock is refused exactly over one's own delete, a version given up exactly for another's committed one, no stamp needed exactly under a lock that covers the request; otherwise it proceeds. The registry loses an overwritten stamp's sharers and no one else who looks live. |
| `RowLocks.WaitsOnHolders` | crates/pg-am-heap/src/heap_am.rs:897-1043 | From rows nobody locked, in every run whose passes stamp under their own latch, a pass waits if a conflicting lock is held throughout it, and only on the holder of a conflicting lock that ran when the pass began. |
| `RowLocks.HeapRows.LiveShareHolders` | crates/pg-am-heap/src/heap_am.rs:1118-1162 | The registered holders and the stamper that look live, the rest pruned. |
| `RowLocks.LocksExclude` | crates/pg-am-heap/src/heap_am.rs:897-1190 | In every run of atomic gate-and-stamp passes interleaved with two-step transaction ends and crashes, a live exclusive or writer holder is the only live holder of its row, and every live share holder is registered or named by the stamp. |
| `RowLocks.CommittedStampsStay` | crates/pg-am-heap/src/heap_am.rs:897-1043 | A pass overwrites another's delete or update stamp only if that transaction did not commit. |
| `RowLocks.GateOnlyKeeps` | crates/pg-am-heap/src/heap_am.rs:1164-1178 | A pass that gates without stamping keeps the locks recorded if and only if it is not by a transaction that holds the row only through the registry while no other holder looks live to it. |
| `RowLocks.UnstampedPassBreaksExclusion` | crates/pg-am-heap/src/heap_am.rs:1749-1816 | Finding: a run with such a pass after which two live transactions hold a row, one of them exclusively. |
| `SlottedPages.SlottedPage.AddTupleAt` | crates/pg-am-heap/src/slotted_page.rs:270-330 | Accepted if and only if the slot is free, at most one past the end, and the bytes fit; then the page is sound, the tuple reads back and no other changes. |
| `SlottedPages.SlottedPage.FirstFitSlot` | crates/pg-am-heap/src/slotted_page.rs:240-262 | The first unused slot, or none. |
| `SlottedPages.LiveBytesFit` | crates/pg-am-heap/src/slotted_page.rs:390-461 | Disjoint survivors cannot exceed the data area, so the restaging cursor never underflows. |
| `SlottedPages.SurvivorsKept` | crates/pg-am-heap/src/slotted_page.rs:390-461 | Every survivor keeps slot, flags, length and bytes, every killed slot is unused. |
| `SlottedPages.CompactedOk` | crates/pg-am-heap/src/slotted_page.rs:390-461 | The result is a sound page and pd_upper is exactly pd_special minus the live bytes. |
| `SlottedPages.CompactIdempotent` | crates/pg-am-heap/src/slotted_page.rs:390-461 | Compacting again without kills changes nothing. |
| `SlottedPages.SlottedPage.Compact` | crates/pg-am-heap/src/slotted_page.rs:390-461 | The in-place staging loops compute that page; they succeed if and only if the kill list is ascending, in range and names tuples, and otherwise change nothing. |
| `HeapRedo.AlikeStamp` | crates/pg-am-heap/src/redo.rs:319-348 | A redone delete is never masked by a lock bit the durable tuple carries. |
| `HeapRedo.EffectRight` | crates/pg-am-heap/src/redo.rs:85-369 | What each record leaves, slot by slot: the tuple added, the old version stamped and linked, the killed slots gone, every other slot as it was; the same from the writer and from redo, but for the command id. |
| `HeapRedo.HeapRecovery.Apply` | crates/pg-am-heap/src/redo.rs:85-317 | A record is accepted if and only if every page it touches accepts it; then each page it touches and that has not seen it has that outcome and its LSN, and no other page changes. |
| `HeapRedo.CaughtStep` | crates/pg-am-heap/src/redo.rs:85-290 | One record on a page at the replay point or past it is accepted and leaves the page at the next point or past it. |
| `HeapRedo.HeapRecovery.Replay` | crates/pg-am-heap/src/redo.rs:85-369 | From any redo start, over versions durable at it or later, chosen per page, no record is refused and every page ends as the writer had it, up to command ids and stamps that are absent, lock-only or of transactions that never commit; what a replay cut short leaves is such a version again. |
| `HotChains.RootUnique` | crates/pg-am-heap/src/heap_am.rs:1512-1549 | Every tuple is on the chain of exactly one root. |
| `HotChains.ChainLength` | crates/pg-am-heap/src/heap_am.rs:1459-1549 | No chain is longer than the slot count, so the hop bound is never hit. |
| `HotChains.FollowHotChain` | crates/pg-am-heap/src/heap_am.rs:1459-1510 | The first visible version of the chain from the given slot, if any. |
| `HotChains.HotChainRoot` | crates/pg-am-heap/src/heap_am.rs:1512-1549 | The root of the tuple's chain. |
| `HotChains.ClassifyDead` | crates/pg-am-heap/src/heap_am.rs:482-633 | Killed are exactly the tuples whose whole chain is dead, in ascending order, and each such chain gives its root's key once. |
| `HotChains.HotPage.HotUpdate` | crates/pg-am-heap/src/heap_am.rs:1556-1908 | A new version linked from the old, nothing else relinked: the chain of the old version ends with the new one, every other chain is as it was, and chains stay disjoint, acyclic and without dangling links. |
| `HotChains.HotPage.Vacuum` | crates/pg-am-heap/src/heap_am.rs:482-633 | For any set of dead tuples the pass succeeds, removes whole dead chains and nothing else, and leaves well-formed chains. |
| `HeapChains.EventKeepsChains` | crates/pg-am-heap/src/redo.rs:85-317 | Every heap record, written or redone, keeps the HOT chains of its page disjoint, acyclic and without dangling links. |
| `HeapChains.HotUpdateAppends` | crates/pg-am-heap/src/redo.rs:319-369 | A HOT update record appends the new version to the chain of the old one and leaves every other chain as it was. |
| `HeapChains.ReplayedChains` | crates/pg-am-heap/src/redo.rs:85-369 | After any run the chains of a recovered page are well formed and the same as the writer's. |
| `Reclaim.HeapRelation.Reclaim` | crates/pg-am-heap/src/heap_am.rs:2050-2140 | Whatever the order of the emptied pages, the chain is the old one without them, they and only they are freed, and at every prefix of the records no page is both reachable from the head and on the freelist. |
| `Reclaim.UnlinkThenFree` | crates/pg-am-heap/src/heap_am.rs:2100-2140 | Unlinking from the nearest chained predecessor and then freeing keeps the chain at both steps. |
| `Reclaim.FreeFirstIsUnsafe` | crates/pg-am-heap/src/heap_am.rs:2100-2140 | The other order puts a reachable page on the freelist. |
| `Reachability.Search` | crates/pg-am-hnsw/src/audit.rs:584-640 | The level-by-level search terminates and marks a node if and only if a path from the entry with never-rising levels leads to it; it fails exactly on a broken edge it meets. |
| `Reachability.AuditReachability` | crates/pg-am-hnsw/src/audit.rs:486-645 | The audit succeeds exactly on consistent metadata and unbroken edges, and its counts partition the nodes by mark and state. |
| `BulkLoad.PartitionRuns` | crates/pg-am-btree/src/bulkload.rs:190-244 | The runs tile the level in order, each fits a page and none could take the next entry. |
| `BulkLoad.FewPages` | crates/pg-am-btree/src/bulkload.rs:92-166 | A level of n > 1 children yields at most a third of n pages, rounded up, and fewer than n. |
| `BulkLoad.BuiltTreeOk` | crates/pg-am-btree/src/bulkload.rs:92-166 | The levels form a well-formed tree. |
| `BulkLoad.BuiltQuiescent` | crates/pg-am-btree/src/bulkload.rs:92-166 | It has no marked page and every leaf's prev hint sees entries, which is what inserts start from. |
| `BulkLoad.SeparatorsSorted` | crates/pg-am-btree/src/bulkload.rs:92-166 | The separators are in (key, child) order if and only if on every inner page children of equal keys have rising ids; the loader itself only orders them by key. |
| `BulkLoad.BuiltFenced` | crates/pg-am-btree/src/bulkload.rs:92-166 | The built tree has ranges if and only if no key is on two leaves. |
| `BulkLoad.BulkLoader.Build` | crates/pg-am-btree/src/bulkload.rs:82-166 | Fails exactly on a key over the bound, touching nothing; else the leaves concatenate to the sorted, deduplicated input under a well-formed tree without marks, without an empty page above the leaves and without dead bytes, whose prev hints all see entries and whose separators are sorted if no page was recycled. It has ranges if and only if no key is on two leaves; with distinct, non-empty keys it is the tree `InsertAll` goes on from. |
| `BulkLoad.RecycledOutOfOrder` | crates/pg-am-btree/src/bulkload.rs:92-166 | Finding: seven duplicates of a key of the largest size, loaded over pages recycled in the order 3, 5, 4, get a root out of order. |
| `BulkLoad.BulkLoader.Find` | crates/pg-am-btree/src/index.rs:3230-3252 | On a built tree a descent by child keys and the locate walk return exactly the TIDs of every key. |
| `TupleCodec.RoundTrip` | crates/pg-am-heap/src/tuple.rs:367-486 | Every well-typed row with nulls, inline and external varlena and optional node id decodes to itself and the node id; the header's flag bits say exactly whether there are nulls, variable-width columns, external values and a node id, its data offset and column count are the row's, and its other fields are as given. |
| `TupleCodec.EncodedBytes` | crates/pg-am-heap/src/tuple.rs:367-486 | The layout of those bytes: each header field at its offset, the null bitmap bit by bit, zero padding up to the data offset, every value at its column's position in little-endian form with its length, the node id behind them, and nothing else. |
| `TupleCodec.PrefixFree` | crates/pg-am-heap/src/tuple.rs:516-654 | No proper extension of a decodable tuple decodes: the tail check is strict. |
| `TupleCodec.HeaderRoundTrip` | crates/pg-am-heap/src/tuple.rs:158-211 | Header fields survive writing and reading. |
| `TupleCodec.EncodeTuple` | crates/pg-am-heap/src/tuple.rs:367-486 | The buffer-growing encoder computes the specified bytes and fails on the same inputs. |
| `TupleCodec.DecodeTuple` | crates/pg-am-heap/src/tuple.rs:516-654 | The position-advancing decoder computes the specified row and fails on the same bytes. |

## Findings

Places where the code does not do what its comments or the protocol promise. Each has a concrete input and the exact
condition under which the promise holds.

- Dead space (`DeadSpaceWedges`, `DrainedRefuses`). `key.rs` promises that the split machinery never wedges. Deletes give
  no bytes back, so a leaf can be full with fewer than two entries and refuse every insert. `InsertPessimistic` says when.
- Stale hints (`DrainedHintBlinds`, `InsertLosesHints`). Placement searches left only as far as the prev hint. Over a
  drained stretch it can put a smaller TID of a key behind a larger one. `Place` says when, and `InsertKeepsHints` when an
  insert causes such a hint; trees that only ever saw inserts never have one.
- Evictions during replay (`EvictionLosesEntries`). Page images replay unconditionally and Copy redo then reloads the
  right page from disk. If the pool has written the regressed page back in between, the moved entries are gone and
  recovery fails. `LostExactly` says when.
- Root promotion and undo (`PromotionLost`). A crash between a promotion and its Commit leaves a marked page that claims
  to be a root the meta page no longer names, and undo refuses it: `CrashInPromotion` for every such run, `Undo` for
  exactly when. If the twin is drained undo unlinks it and leaves the claim on the unmarked page.
- Splits found by scanning (`ScanFound`). For a split redo does not report, undo derives the slot from the left page and
  fails below two entries, even if the copy is complete and nothing is left to move. `UndoOne` says when.
- Root promotion and images (`RootPromotionEscapes`). The new root is neither latched nor marked between append and
  apply. `OnlyNewRootsEscape` shows this is the only gap.
- Equal keys on several leaves (`TieRefused`). The module comment says a tie of separators costs one extra hop, and that
  only recycled pages cause one. Splitting the left part of a run after its right part causes one with fresh pages, and
  once the parent has split between the two downlinks the write descent restarts until its budget is spent. `SplitCommit`
  and `FencedCutsClean` give the cause exactly: ranges are lost by a split if and only if it cuts a run of equal keys;
  `InsertEntry` says when inserts succeed.
- Empty separators (`EmptySeparator`). A new root's two entries are out of order exactly if the separator is the empty
  key and the right page has the smaller id (`NewRootOrder`).
- Bulk load over recycled pages (`RecycledOutOfOrder`). Separators of equal keys can be out of order; `SeparatorsSorted`
  says when, and without recycled pages they never are (`Build`).
- Gate without stamp (`UnstampedPassBreaksExclusion`). The first pass of a cross-page update retires the share registry
  and drops the latch without stamping; `GateOnlyKeeps` says when that loses a lock.
- Exact re-insert (`ReinsertAccepted`). A pair that is the last entry of a page left of the start is inserted a second
  time. `Place` says when from a given start; over a whole insert it takes a pair that ends its leaf (`InsertEntry`).

## Left out

- Concurrency of B+Tree inserts: placement and splits run alone; the re-validation loops after re-latching find the page unchanged.
- CommitImages.OnlyNewRootsEscape: one cascade at a time, as the root latch serializes them.
- TreeInsert.BTreeIndex.InsertEntry: success is stated for trees with ranges and up to 16374 leaves; where a run of equal keys covers several leaves it can fail, and only the failing side of that (`Ties.TieRefused`) is stated. Stale prev hints over longer chains can meet the hop bound.
- TreeInsert.BTreeIndex.NewPage: allocation is assumed to succeed, so the retry after a full buffer pool is not modelled.
- SplitUndo.UndoPass.Undo: ranges are stated for trees without a repeated key whose marked leaves hold an entry. It assumes that the whole-file scan meets no page of another relation that names a page of this tree, and that allocation succeeds; the log positions of undo's own page images are abstracted to increasing numbers.
- SplitRedo.Recovery.Replay: torn writes are not modelled, a page on disk is always one of its versions. Its log has no compensation records; those are `SplitClr.ReapplyConverges`, and undo cut short is `UndoTidy.RestartsAfter`.
- SplitRedo.NothingLost: does not cover write-backs of a right page between the replay of its image and of its Copy; there it is false, and `LostExactly` gives the condition.
- BulkLoad.BulkLoader.Build: its log and the crash semantics of its meta record are not modelled.
- The meta page is a root pointer; its records and the per-handle root cache are not modelled.
- Latch order, deadlocks and lock waits; the legacy gate mode without a wait queue.
- MVCC visibility is a given set of visible versions, transaction states a given view per pass.
- Redirect and dead line pointers in HOT chains, tuples vacuum cannot decode, and the chain-head cache of the heap beyond its page list.
- HNSW pages are neighbour lists with levels; distance functions and the directory chain are not modelled.
- Vector elements are 32-bit patterns; float comparison is not modelled.
- `AccessMethod` adapters, error text, statistics and configuration.

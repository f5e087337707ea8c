# endlessfs in Dafny

A model of the storage engine of endlessfs (`internal/portable`), of its administrator
operations and of its bounded recovery responses, with proofs of what they promise.

The engine builds key/value domains out of one primitive, a conditional object write. A
domain is a head: a base tree, a bounded window of deltas, a tree of outcomes and a tree of
their expiries. Replicas race to replace the head, responses get lost, heads are compacted,
registered in a catalog and frozen by epoch. Trees are persistent B+-trees of immutable
pages that are found by digest and grouped into packs. A checkpoint lists everything
reachable and garbage collection deletes the rest.

## How the model is made

| part | files |
|---|---|
| heads: lookup, validation, outcomes, compaction | `DomainHead`, `HeadNormalize`, `HeadListing`, `KeyPages` |
| heads: the protocol of replicas, over whole runs | `HeadProtocol`, `HeadHistory`, `HeadSafety`, `HeadFreeze`, `HeadThaw`, `HeadReuse` |
| trees: pages, edits, lookup, range, rebuild | `PageGroups`, `DomainTree`, `TreeEdit`, `TreeApply`, `TreeMap`, `TreeRebuild` |
| trees: streaming builder and iterator | `TreeStream`, `TreeCursor` |
| pages in packs, and repacking | `PageStore`, `PageWrite`, `Repack`, `RepackLayout` |
| checkpoints: visit set, external sort, walk, listing, inventory | `VisitSet`, `ExternalSort`, `Reachability`, `Metadata`, `Inventory` |
| garbage collection: the protocol and the plan | `GarbageCollection`, `GarbageSafety`, `GarbageQuiet`, `GarbageSweep`, `GarbageProgress`, `GarbagePlan`, `GarbageBridge` |
| directories | `DirectoryMerge`, `DirectoryPreparation` |
| administrators and recovery responses | `AdminRoles`, `ResponsePage` |

- A digest is injective, so the digest of a thing is the thing itself.
- Keys are compared and never inspected, so a key is its rank among the strings at hand, and
  zero is the empty string. Only `DirectoryMerge`, where paths are prefixed, works on bytes.
- Canonical sizes are functions given as parameters; one more array member costs its own size
  and one byte for the comma.
- Concurrency is a state machine: `World` is the state, `Event` the atomic steps, and a run is
  a sequence of worlds joined by enabled events. Each read and each conditional write is one
  step; a write may take effect without its writer learning of it; a worker may stop anywhere.
- Clocks, randomness, identifiers and the answers of providers are parameters or events.

Assumptions that the theorems name: mutation identifiers are not submitted again after their
own expiry (`HeadReuse.ReuseAfterExpiryForgets` shows what happens otherwise); object versions
are fresh; gate epochs only rise; a checkpoint identifier is not used for a second plan; any two
child descriptors fit one page; `GarbageQuiet` is about runs in which nobody writes objects
while the gate is closed; and `PageStore` collects only what no root of the head reaches, after a
write of the head that leaves every earlier writer behind, as freezing does.

Where the code does not keep the plain promise there is an input or a run on which it fails,
and the exact condition under which it holds:

- Compaction keeps every unexpired outcome if and only if no stale expiry entry of a live outcome
  is on the first expiry page (`DomainHead.CompactionKeepsOutcomesIff`). Writes that every replica
  admits lead from an inert head to a head with such an entry, by using an identifier again after
  its expiry, and the next compaction forgets an unexpired outcome (`HeadReuse.ReuseAfterExpiryForgets`).
- Cancelling a closing gate reopens it without a new epoch, so an `unfreeze` of that epoch may
  still be under way when the next freeze of the same epoch returns. `HeadThaw.StaleUnfreezeBreaksFreeze`
  is a run in which a frozen domain then changes. A frozen state stays as it is for as long as
  nobody calls `unfreeze` if and only if no replica is inside `unfreeze` of that epoch and no write of
  it can still take effect (`HeadThaw.StillIff`).
- Full items in a recovery page are admitted from the front in one pass, and a full item may be
  shorter than its placeholder. `ResponsePage.CrowdedIsNotMaximal` is a page that could take another
  full item; a page could not if and only if no skipped item is freed by what is admitted after it
  (`ResponsePage.MaximalIff`).
- The progress record of a collection is not monotone: a worker that began before there was a record
  adopts one that is ahead of it and then replaces it (`GarbageProgress.ProgressMovesBack`). A record
  moves back if and only if its holder finished a page that it covers (`GarbageProgress.MovesBackIff`);
  what it says stays true (`GarbageQuiet.RecordedIsGone`).
- Streaming cuts branch pages by item count alone. It fails exactly when a page above the leaves is
  then too large (`TreeStream.StreamTree`), where the batch builder would cut smaller pages.

## Model

| member | source | states |
|---|---|---|
| `DomainHead.SearchChanges` | internal/portable/domain_store.go:921-941 | binary search in a sorted delta finds the first change at or above the key |
| `DomainHead.LookupAtHead` | internal/portable/domain_store.go:921-941 | the newest change of the key in the window decides, else the base tree: the result is the value of the key in the map that the head stands for |
| `DomainHead.ValidateMutation` | internal/portable/domain_store.go:716-743 | succeeds exactly when every key required absent is absent, every key required present is there at its expected version, and every key to delete is there; otherwise the first request that fails gives not found for a missing key, conflict for one that should be absent, and precondition failed for a stale version |
| `HeadNormalize.NormalizeMutation` | internal/portable/domain_store.go:151-188 | accepts exactly non-empty requests with distinct keys that are present, expect a version only where the key must be present, and delete without data, in any order; answers them in key order with the fingerprint of exactly these requests and this result |
| `HeadNormalize.OrderIsIrrelevant` | internal/portable/domain_store.go:151-188 | the normal form does not depend on the order of the requests |
| `DomainHead.CommitWrites` | internal/portable/domain_store.go:345-356 | after a commit, appended or folded, each requested key holds the requested data at the version of this mutation, or nothing if deleted, and every other key what it held |
| `DomainHead.LookupOutcome` | internal/portable/domain_store.go:760-793 | returns the newest unexpired outcome of an identifier in the window, else the unexpired one in the outcome tree, else nothing |
| `DomainHead.CompactionKeepsOutcomesIff` | internal/portable/domain_store.go:951-1021 | compaction leaves every unexpired outcome as it is if and only if no stale expiry entry is on the first expiry page |
| `DomainHead.FoldWindow` | internal/portable/domain_store.go:963-1000 | folding the window yields edits that turn the base into the head's map, and exactly the live outcomes and their expiries |
| `DomainHead.FoldChanges` | internal/portable/domain_store.go:967-973 | recording the changes of a delta as latest edits, then overlaying them, is applying the delta |
| `DomainHead.FirstExpiries` | internal/portable/domain_store.go:1030-1063 | the first page of the expiry tree in order |
| `DomainHead.PruneExpiredOutcomes` | internal/portable/domain_store.go:1030-1063 | deletes exactly the expired entries of the first page and their outcomes, sparing outcomes that this batch rewrites, and adds the live ones |
| `DomainHead.CompactSnapshot` | internal/portable/domain_store.go:951-1021 | the compacted head: same map and revision, empty window, live outcomes folded in and one page pruned |
| `DomainHead.Materialize` | internal/portable/domain_store.go:439-587 | writing a mutation through the trees at once equals appending its delta and compacting |
| `HeadHistory.ValuesAreRun` | internal/portable/domain_store.go:921-941 | the map of a head that stands for a history is the sequential run of that history |
| `HeadHistory.RecordedIsOutcome` | internal/portable/domain_store.go:760-793 | while a mutation of the history is unexpired, the head returns exactly its outcome |
| `HeadHistory.RecordedIsHistory` | internal/portable/domain_store.go:760-793 | a head returns no outcome that no mutation of its history produced |
| `HeadHistory.RunWrites` | internal/portable/domain_store.go:345-356 | each step of the sequential run writes what its mutation asks for and nothing else |
| `HeadHistory.EffectWrites` | internal/portable/domain_store.go:250-432 | commits and materialised commits write their requests; compaction, registration, freezing and unfreezing change no value |
| `HeadHistory.CompactRetains` | internal/portable/domain_store.go:951-1021 | without reused identifiers compaction keeps every unexpired outcome, and the outcome and expiry trees correspond entry for entry |
| `HeadHistory.WriteRepresents` | internal/portable/domain_store.go:250-432 | every admissible write (commit, materialised commit, compaction, registration, freeze, unfreeze) takes a head that stands for a history to one that stands for it with at most that mutation appended |
| `HeadSafety.RunKeeps` | internal/portable/domain_store.go:250-432 | the invariant of heads, snapshots, writes in flight and replies holds in every state of every run |
| `HeadSafety.HistoryGrows` | internal/portable/domain_store.go:250-432 | the history of a domain is only ever extended |
| `HeadSafety.HeadsAreSequential` | internal/portable/domain_store.go:250-432 | in every reachable state each head is the sequential run of its history: every requirement held just before its mutation, each mutation wrote exactly its requests and nothing else, the revision is the number of mutations, and no identifier occurs twice |
| `HeadSafety.ReplayFindsOutcome` | internal/portable/domain_store.go:760-793 | before its expiry a committed mutation is found again at the head with its own identifier, intent, revision, expiry and result |
| `HeadSafety.AnswerIsGiven` | internal/portable/domain_store.go:386-430 | a mutation whose write is answered is the next of the history, and its caller is told its own result at that revision |
| `HeadSafety.RepliesAreOutcomes` | internal/portable/domain_store.go:319-328 | every answer, first or replayed, is the identifier, intent, revision, expiry and result of an applied mutation with the asked identifier |
| `HeadSafety.ReplayedIff` | internal/portable/domain_store.go:319-328 | while the record of an identifier is unexpired, a replay is answered if and only if it repeats the requests and the result of the record, and then with that result |
| `HeadSafety.RepliesAgree` | internal/portable/domain_store.go:250-432 | any two replies to one mutation identifier of a domain, at any two times, carry the same fingerprint, revision and result |
| `HeadSafety.RegisteredIsNamed` | internal/portable/domain_store.go:593-668 | a registered head has a permanent catalog entry |
| `HeadReuse.GrowAll` | internal/portable/domain_store.go:439-587 | from an inert head, admitted materialised mutations lead to a head whose expiry tree holds any number of entries that expire together |
| `HeadReuse.ReuseAfterExpiryForgets` | internal/portable/domain_store.go:1030-1063 | a lineage of admitted writes from an inert head in which an identifier used again after its expiry loses its new, unexpired outcome in the next compaction |
| `HeadFreeze.FrozenHeadIsImmutable` | internal/portable/domain_store.go:1086-1133 | the only write that can replace a head frozen at an epoch is the unfreeze of that epoch |
| `HeadFreeze.FrozenCatalogIsImmutable` | internal/portable/domain_catalog.go:85-124 | the only write that can replace a catalog frozen at an epoch is the unfreeze of that epoch |
| `HeadFreeze.FrozenPeriodIsStill` | internal/portable/domain_catalog.go:178-215 | once freezing an epoch has returned, with no unfreeze of it active since before it was called, and until unfreeze is called, no domain changes contents or history, every named head is the very same object, and every other head is inert |
| `HeadFreeze.QuietRun` | internal/portable/domain_store.go:1086-1166 | from any frozen state in which no unfreeze of the epoch is active or can take effect, only a new call of unfreeze can change the catalog or a named head |
| `HeadThaw.StillIff` | internal/portable/domain_catalog.go:217-245 | a frozen state keeps all contents and histories in every continuation without a call of unfreeze if and only if no replica is inside unfreeze of the epoch and no write of it can still take effect |
| `HeadThaw.ReturnedIsStillIff` | internal/portable/domain_catalog.go:178-245 | the same at every state of every run in which freezing has returned |
| `HeadThaw.UnfreezerBreaks` | internal/portable/domain_catalog.go:235-240 | a replica inside unfreeze of the epoch can, without another call, thaw a named domain and let a mutation change it |
| `HeadThaw.StaleUnfreezeBreaksFreeze` | internal/portable/gate.go:126-180 | a run from an initial state in which freezing has returned, nobody calls unfreeze again, and a frozen domain changes |
| `HeadListing.CollectedSuffices` | internal/portable/domain_store.go:861-915 | collecting as many base entries as the limit and the relevant changes together is enough for the first page of the overlaid map |
| `HeadListing.OverlayWindow` | internal/portable/domain_store.go:861-915 | overlaying the window on collected entries agrees with the head's map on every relevant key |
| `HeadListing.CountRelevant` | internal/portable/domain_store.go:861-915 | counts the changes of the window that are in range and above `after` |
| `HeadListing.ListAtHead` | internal/portable/domain_store.go:861-915 | exactly the first `limit` keys of the head's map in range and above `after`, in order, with their values |
| `HeadListing.ListAll` | internal/portable/domain_store.go:861-915 | chaining pages by their last key enumerates the whole range once and in order |
| `HeadListing.CollectIsFirst` | internal/portable/domain_tree.go:471-523 | the tree's range collection is the first page of the keys it holds |
| `PageGroups.PrefixIsMaximal` | internal/portable/domain_tree.go:780-794 | the chosen prefix fits a page and one item more would not, or the page is full |
| `PageGroups.CanonicalPagePrefix` | internal/portable/domain_tree.go:780-794 | the search by encoded size finds the longest prefix that fits |
| `PageGroups.GroupsFailIff` | internal/portable/domain_tree.go:758-772 | cutting fails exactly when some item fits no page alone |
| `PageGroups.GroupsAreGreedy` | internal/portable/domain_tree.go:758-772 | the groups are non-empty, concatenate to the input, and none could take the first item of the next |
| `PageGroups.CutGroups` | internal/portable/domain_tree.go:913-936 | the cutting loop computes those groups |
| `DomainTree.ChildEntries` | internal/portable/domain_tree.go:384-393 | a verified child descriptor bounds exactly the entries below it |
| `DomainTree.DescribeIsExact` | internal/portable/domain_tree.go:395-433 | the descriptor of a well-formed page has its first and last key, level and exact entry and byte counts |
| `DomainTree.SortedUnique` | internal/portable/domain_tree.go:435-469 | two strictly ordered entry sequences with the same entry under every key are equal |
| `TreeEdit.EditEntry` | internal/portable/domain_tree.go:682-704 | one change at the place found by binary search keeps order and changes that key alone |
| `TreeEdit.EditLeaf` | internal/portable/domain_tree.go:682-704 | a leaf under a batch holds the edited map, in order |
| `TreeEdit.LeafPagesOk` | internal/portable/domain_tree.go:743-772 | the leaves written for sorted entries are a well-formed row with those entries, unless an entry fits no page |
| `TreeEdit.BranchPagesOk` | internal/portable/domain_tree.go:824-850 | the parents written for a row are a well-formed row one level up with the same entries, and fewer than the row when it has several pages |
| `TreeEdit.WriteLeafGroups` | internal/portable/domain_tree.go:743-756 | writes the leaf pages of the canonical groups |
| `TreeEdit.WriteBranchGroups` | internal/portable/domain_tree.go:824-850 | writes the branch pages of the canonical groups |
| `TreeApply.ChildIndex` | internal/portable/domain_tree.go:575-584 | binary search routes a key to the one child that can hold it |
| `TreeApply.GroupChanges` | internal/portable/domain_tree.go:705-717 | a sorted batch is split into the sorted sub-batches of the children |
| `TreeApply.RewriteChildren` | internal/portable/domain_tree.go:718-741 | replacing touched children under a running offset leaves exactly the rewritten row, or fails exactly when a stored value fits no page |
| `TreeApply.Rewrite` | internal/portable/domain_tree.go:682-741 | the pages that replace a page are a well-formed row that holds the edited map |
| `TreeMap.RaiseLevels` | internal/portable/domain_tree.go:610-620 | writing parents until one page is left terminates with a well-formed root over the same entries |
| `TreeMap.BuildTree` | internal/portable/domain_tree.go:622-637 | building succeeds exactly when every entry fits a page, and gives a well-formed tree of exactly those entries |
| `TreeMap.SortBatch` | internal/portable/domain_tree.go:586-592 | the same changes in key order |
| `TreeMap.Apply` | internal/portable/domain_tree.go:586-620 | apply fails exactly when a stored value fits no page; otherwise the tree is well-formed, each changed key holds its new value and version, or nothing if deleted, and every other key its old entry |
| `TreeMap.AppliedMeans` | internal/portable/domain_tree.go:586-620 | the last change of a key decides what the tree holds under it, and a key that no change names keeps its entry |
| `TreeMap.AppliedIsUnique` | internal/portable/domain_tree.go:586-620 | all results of one batch, however built, hold the same entries in the same order and the same totals |
| `TreeMap.Lookup` | internal/portable/domain_tree.go:435-469 | lookup agrees with the tree's map for every key, whatever filter without false negatives is recorded |
| `TreeMap.Collect` | internal/portable/domain_tree.go:471-523 | the first `limit` entries in the prefix range above `after` |
| `TreeRebuild.Rebuild` | internal/portable/domain_tree.go:643-680 | rebuilding fails exactly when an entry that remains fits no page; otherwise the last change of each key took effect, with its value and version, and every other key keeps its entry |
| `TreeRebuild.EditMap` | internal/portable/domain_tree.go:651-661 | changes applied to a map in order, the last of a key winning |
| `TreeRebuild.InOrder` | internal/portable/domain_tree.go:662-669 | the entries of a map in key order |
| `TreeRebuild.RebuildAgreesWithApply` | internal/portable/domain_tree.go:643-680 | rebuilding and path copying hold the same entries in the same order |
| `TreeStream.GreedyIsGroups` | internal/portable/domain_tree_stream.go:126-175 | leaves cut one entry at a time are the leaves of the batch builder |
| `TreeStream.CollapseClimbs` | internal/portable/domain_tree_stream.go:211-239 | collapsing the open levels gives the root above the row of leaves |
| `TreeStream.PushFitsIff` | internal/portable/domain_tree_stream.go:177-209 | a child can be pushed exactly when every page that the longer row fills can be encoded |
| `TreeStream.CollapseFitsIff` | internal/portable/domain_tree_stream.go:211-239 | collapsing succeeds exactly when every page above the row of leaves can be encoded |
| `TreeStream.StreamIsClimb` | internal/portable/domain_tree_stream.go:126-239 | what streaming reaches is the root above the leaves that the batch builder cuts, for any encoding bound |
| `TreeStream.BlockedStaysBlocked` | internal/portable/domain_tree_stream.go:126-175 | a page that cannot be encoded when a leaf closes cannot be encoded above any longer stream |
| `TreeStream.StreamIsBatch` | internal/portable/domain_tree_stream.go:126-239 | when branch pages are bounded by their item count, streaming cannot fail above the leaves and the streamed tree is the tree that buildTree makes |
| `TreeStream.Builder.Add` | internal/portable/domain_tree_stream.go:126-160 | appends one entry to what was added, and refuses it exactly when it fits no page alone or closing the open leaf fills a branch page that is too large |
| `TreeStream.Builder.FlushLeaf` | internal/portable/domain_tree_stream.go:162-175 | cuts the open leaf and keeps everything added, and fails exactly when a branch page that this fills is too large |
| `TreeStream.Builder.AddReference` | internal/portable/domain_tree_stream.go:177-186 | pushes a child on a level, carrying full pages upwards |
| `TreeStream.Builder.FlushLevel` | internal/portable/domain_tree_stream.go:188-209 | replaces a full level by its parent one level up |
| `TreeStream.Builder.CollapseLevels` | internal/portable/domain_tree_stream.go:211-239 | the finishing loop terminates and gives the root of everything added, and fails exactly when a page above the leaves is too large |
| `TreeStream.Builder.Finish` | internal/portable/domain_tree_stream.go:211-239 | the leaves that the batch builder cuts from the entries added, under the root over full pages of the item count; fails exactly when one of those pages is too large |
| `TreeStream.StreamTree` | internal/portable/domain_tree_stream.go:122-239 | for every sorted stream the leaves are those of the batch builder and the root is the one over full pages of the item count; fails exactly when an entry fits no page or one of those pages is too large; equal to the batch-built tree when branch pages are bounded by item count |
| `TreeCursor.SeekAfter` | internal/portable/domain_tree_stream.go:26-56 | the start-after stack stands for exactly the entries above the bound |
| `TreeCursor.PushLeftmost` | internal/portable/domain_tree_stream.go:68-81 | descending to the leftmost leaf puts the entries of a page before the rest |
| `TreeCursor.Advance` | internal/portable/domain_tree_stream.go:83-109 | leaving finished pages keeps what remains |
| `TreeCursor.TreeIterator.constructor` | internal/portable/domain_tree_stream.go:58-66 | starts with all entries of the tree remaining |
| `TreeCursor.TreeIterator.After` | internal/portable/domain_tree_stream.go:26-56 | starts with the entries above the bound remaining |
| `TreeCursor.TreeIterator.Next` | internal/portable/domain_tree_stream.go:83-109 | yields the first remaining entry and keeps the rest |
| `TreeCursor.Drain` | internal/portable/domain_tree_stream.go:58-109 | the iterator returns exactly the entries of the tree above the bound, in order |
| `PageStore.StepKeeps` | internal/portable/domain_tree.go:938-1011 | every step keeps that heads are present and that whatever a writer the head has not left behind refers to is stored or staged by it; packs are created once and, except by collection, never change |
| `PageStore.DescriptorsAreTrue` | internal/portable/domain_tree.go:384-433 | the level, bounds, entry count and byte count recorded for a present page are true of the entries below it, which are strictly ordered |
| `PageStore.LevelIsHeight` | internal/portable/domain_tree.go:395-433 | the level recorded for a present page is the number of levels down to every leaf |
| `PageStore.ReadPage` | internal/portable/domain_tree.go:332-382 | a page is read exactly when its pack holds it, it is valid and it is as the reference says; a missing pack or single page is not found and anything else invalid |
| `PageStore.ReadTree` | internal/portable/domain_tree.go:332-382 | reading everything below a reference succeeds exactly when all of it is present, and gives its entries in order |
| `PageStore.SparedIsPresent` | internal/portable/checkpoint_gc_plan009.go:449-477 | deleting packs and single pages that a reference does not reach leaves everything below it present |
| `PageStore.PublishedPagesArePresent` | internal/portable/domain_tree.go:265-308 | in every reachable state every page below a published root is stored where its reference says, is valid, and is as its descriptor says, and the recorded totals, bounds and level are true of the tree, despite crashes, lost responses, racing packs and collection |
| `PageStore.PublishedIsWhatWasWritten` | internal/portable/domain_store.go:545-565 | a writer whose head is current publishes exactly the trees it wrote, wholly present and one version on; one that was overtaken changes nothing |
| `PageStore.OldHeadsStayPresent` | internal/portable/domain_store.go:545-565 | the pages of every root ever published are still present at any later time, until a collection deletes one of them |
| `PageWrite.StageTree` | internal/portable/domain_tree.go:938-1011 | any tree of valid new pages over pages that the head reaches can be written, children first |
| `PageWrite.WriteAlone` | internal/portable/domain_tree.go:265-308 | a writer left alone publishes any such trees, and the new head is one version on and holds exactly them |
| `PageWrite.CollectAlone` | internal/portable/checkpoint_gc_plan009.go:449-477 | a collection left alone removes exactly the packs and single pages it names, when the roots do not reach them |
| `Repack.SameTreeSameContents` | internal/portable/domain_repack_closure.go:164-178 | a tree repacked with its outside references kept has the same ordered entries |
| `Repack.Closure.Collect` | internal/portable/domain_repack_closure.go:73-119 | collects in postorder exactly what a reference reaches through the source pack, and succeeds exactly when all of it can be read, is valid, and is as every reference to it says |
| `RepackLayout.InitialRanges` | internal/portable/domain_repack_closure.go:180-216 | cuts the pages into consecutive ranges within the size limit, each unable to take its next page |
| `RepackLayout.RewritePage` | internal/portable/domain_repack_closure.go:164-178 | keeps children outside the source pack and gives every other child its new reference |
| `RepackLayout.LayAll` | internal/portable/domain_repack_closure.go:247-273 | each page is written to the pack of its range, and each pack stages exactly the pages of its range |
| `RepackLayout.CollectRoots` | internal/portable/domain_repack_closure.go:224-229 | collects exactly what the roots reach through the source pack, or fails exactly when some of it cannot be read or is not as described |
| `RepackLayout.PackStore.Create` | internal/portable/domain_tree.go:265-308 | creates a pack, accepting an existing one only with the same pages |
| `RepackLayout.Publish` | internal/portable/domain_repack_closure.go:302-309 | adds the packs of a layout and no others, replaces none, and fails exactly when a pack exists with other pages or two ranges need different pages in one pack |
| `RepackLayout.NewRoots` | internal/portable/domain_repack_closure.go:310-315 | each root inside the source pack becomes the same tree in its new pack with the same level and totals, and every other root stays |
| `RepackLayout.RewrittenIsPresent` | internal/portable/domain_repack_closure.go:164-178 | once every pack holds its pages, everything below a rewritten page is present |
| `RepackLayout.ChildComesFirst` | internal/portable/domain_repack_closure.go:164-178 | the new reference of a child exists before its parent is rewritten |
| `RepackLayout.RewrittenIsSame` | internal/portable/domain_repack_closure.go:164-178 | a rewritten page is the same tree as the original with the same descriptors, and references outside the source pack unchanged |
| `RepackLayout.RewrittenIsDescribed` | internal/portable/domain_repack_closure.go:164-178 | rewriting changes neither the descriptor of a page nor that it is valid |
| `RepackLayout.Refine` | internal/portable/domain_repack_closure.go:274-297 | halves exactly the ranges whose pack is too large, keeps the others, and fails exactly when one of them is a single page |
| `RepackLayout.Settle` | internal/portable/domain_repack_closure.go:243-300 | refining terminates after fewer splits than there are pages with a layout whose every range fits and in which a range was halved only because its pack did not fit; it fails only on such a layout in which a single page does not fit |
| `RepackLayout.RepackClosure` | internal/portable/domain_repack_closure.go:223-317 | the new roots are the same trees and are wholly present; the packs added are those of the first cut by size, halved only where a pack did not fit; none is replaced and every one fits; it fails as unreadable exactly when a reachable page is missing, invalid or not as described, as too large only when in such a layout a single page does not fit, with nothing written in both cases, and otherwise only when a pack of the layout collides |
| `VisitSet.LevelIsBit` | internal/portable/checkpoint_visit_set.go:112-133 | after f flushes level i is occupied exactly when bit i of f is set, and then holds limit times 2^i identities |
| `VisitSet.RunsDisjoint` | internal/portable/checkpoint_visit_set.go:112-133 | runs of different levels share no identity |
| `VisitSet.RunContains` | internal/portable/checkpoint_visit_set.go:135-168 | binary search in a run is membership |
| `VisitSet.MergeRuns` | internal/portable/checkpoint_visit_set.go:205-252 | the merge of two runs is ascending, has the members of both, and as many as both together when they are disjoint |
| `VisitSet.Visited.Seen` | internal/portable/checkpoint_visit_set.go:55-83 | answers whether the identity was passed before and remembers it; the empty identity is an error and changes nothing |
| `VisitSet.Visited.Flush` | internal/portable/checkpoint_visit_set.go:84-110 | a full buffer becomes one more sorted run |
| `VisitSet.Visited.InsertRun` | internal/portable/checkpoint_visit_set.go:112-133 | inserting a run is incrementing the binary counter of levels |
| `VisitSet.SeenSequence` | internal/portable/checkpoint_visit_set.go:55-83 | for every call sequence and buffer size the answers are exact |
| `ExternalSort.MergeChunks` | internal/portable/checkpoint_reachability.go:194-243 | the merge of any number of sorted chunks is ascending with exactly their members |
| `ExternalSort.MergeRound` | internal/portable/checkpoint_reachability.go:253-276 | a round keeps the members and leaves fewer chunks when there were too many |
| `ExternalSort.Collector.Add` | internal/portable/checkpoint_reachability.go:62-71 | adds a key, refusing only the empty one |
| `ExternalSort.Collector.Flush` | internal/portable/checkpoint_reachability.go:73-106 | the buffer becomes a sorted chunk and no key is lost |
| `ExternalSort.Collector.Consolidate` | internal/portable/checkpoint_reachability.go:253-276 | consolidation terminates with few enough sorted chunks of exactly the keys added |
| `ExternalSort.Stream.Next` | internal/portable/checkpoint_reachability.go:307-324 | yields the least remaining key once |
| `ExternalSort.SortedKeys` | internal/portable/checkpoint_reachability.go:285-324 | the stream is ascending with exactly the keys collected |
| `Reachability.Walk` | internal/portable/checkpoint_reachability.go:491-529 | the memoised walk adds exactly the keys of pages that were not finished before |
| `Reachability.WalkItems` | internal/portable/checkpoint_reachability.go:491-556 | after the items of a page everything it reaches is collected, and nothing else |
| `Reachability.ReachableKeys` | internal/portable/checkpoint_reachability.go:347-458 | for any sharing between trees and any chunk sizes the keys are, ascending and once each, those that the plain traversal reaches |
| `Metadata.ReadListing` | internal/portable/checkpoint.go:741-790 | the objects of a listing that the checkpoint includes, or an error exactly when a key is empty, outside the prefix, out of order or in the wrong backend |
| `Metadata.RoleIncludes` | internal/portable/checkpoint.go:428-449 | an object of the other backend is an error; otherwise file data of the role, or state that from schema 008 on is authoritative, is included |
| `Metadata.MergeBackends` | internal/portable/checkpoint.go:807-840 | all objects of both backends in key order with their role, or an error exactly when a key occurs in both |
| `Metadata.JoinReachable` | internal/portable/checkpoint_reachability.go:579-656 | succeeds exactly when every reachable key is listed and every other listed object is collectable, and then emits exactly the reachable objects in key order |
| `Inventory.WriteInventory` | internal/portable/checkpoint.go:273-413 | writes the hash-chained pages of the entries and their summary with the numbers of state and file objects, and fails exactly when an entry is not attested, a tracked object repeats, there is none, or a different page exists; the tracked objects are those of the entries |
| `Inventory.VisitInventory` | internal/portable/checkpoint.go:560-639 | succeeds exactly when pages, chain, order and totals are as the summary says, and then gives the entries of all pages |
| `Inventory.CheckEntries` | internal/portable/checkpoint.go:560-639 | a page is accepted exactly when its entries continue the valid sequence |
| `Inventory.DigestPinsChain` | internal/portable/checkpoint.go:560-639 | the digest of the last page determines every page before it |
| `Inventory.ReadingReturnsWhatWasWritten` | internal/portable/checkpoint.go:560-639 | reading an inventory returns exactly the entries and counts written, for any length |
| `Inventory.WrittenIsReadable` | internal/portable/checkpoint.go:273-413 | a written inventory of valid entries is accepted by the reader and gives back exactly those entries, for any length |
| `Inventory.VerifyInventory` | internal/portable/checkpoint.go:648-707 | verification succeeds exactly when the inventory is readable and equals the current metadata |
| `Inventory.VerifiedIsCurrent` | internal/portable/checkpoint.go:648-707 | a written inventory verifies only against the very sequence it was written from |
| `GarbageSafety.RunKeeps` | internal/portable/checkpoint_gc_plan009.go:317-378 | in every run the invariant of plans, listed versions, pending deletes and removals holds |
| `GarbageSafety.OnlyClosedGarbageIsRemoved` | internal/portable/checkpoint_gc_plan009.go:449-477 | every removed object was planned garbage, outside the inventory, in an incarnation that existed while that checkpoint's gate was closed; what was created after reopening survives |
| `GarbageSafety.OnlyClosedGarbageDisappears` | internal/portable/checkpoint_gc_plan009.go:449-477 | an object that disappears without being written or removed by others was planned garbage, outside the inventory, and that very incarnation existed at an earlier moment while the gate was closed for that checkpoint |
| `GarbageSafety.NewObjectsSurvive` | internal/portable/checkpoint_gc_plan009.go:317-378 | no delete of a checkpoint takes an object written after its gate was reopened |
| `GarbageQuiet.CollectedOnlyWhileClosed` | internal/portable/checkpoint_gc009.go:220-229 | when nobody writes while the gate is closed, every delete takes effect while the gate is closed for its own checkpoint |
| `GarbageQuiet.ReopenedIsClean` | internal/portable/checkpoint_gc_plan009.go:317-378 | when nobody writes while the gate is closed, the gate reopens only after every planned object is gone |
| `GarbageQuiet.RecordedIsGone` | internal/portable/checkpoint_gc_plan009.go:317-378 | when nobody writes while the gate is closed, the pages that the progress record covers are gone |
| `GarbageSweep.LookAll` | internal/portable/checkpoint_gc_plan009.go:422-445 | listing a page of the plan finds the current version of each of its objects |
| `GarbageSweep.DeleteAll` | internal/portable/checkpoint_gc_plan009.go:447-477 | the answered deletes of a page remove exactly their objects |
| `GarbageSweep.SweepPage` | internal/portable/checkpoint_gc_plan009.go:336-374 | a page that nobody disturbs is checked, deleted and recorded, and exactly its objects are gone |
| `GarbageSweep.CheckpointAlone` | internal/portable/checkpoint_gc_plan009.go:317-378 | from any open gate a checkpoint left alone closes it, records its plan, and reopens it at the next epoch with exactly the planned objects gone and every other object as it was |
| `GarbageProgress.StepRecords` | internal/portable/checkpoint_gc_plan009.go:394-420 | a progress record is created only where there was none and replaced only by the worker that holds it, with the page after the one it finished and a fresh version |
| `GarbageProgress.VersionNamesRecord` | internal/portable/checkpoint_gc009.go:231-247 | in every run two progress records of one version are the same record, so no replacement goes unseen |
| `GarbageProgress.MovesBackIff` | internal/portable/checkpoint_gc_plan009.go:394-420 | a progress record moves back if and only if its holder finished a page that the record already covers |
| `GarbageProgress.ProgressMovesBack` | internal/portable/checkpoint_gc_plan009.go:394-420 | a run in which a worker that began early adopts the record of a finished sweep and puts an earlier page in its place |
| `GarbagePlan.Builder.Add` | internal/portable/checkpoint_gc_plan009.go:116-150 | appends an entry to the plan, and refuses it exactly when it is ineligible, out of order, or a full page differs from one in the store |
| `GarbagePlan.Builder.FlushPage` | internal/portable/checkpoint_gc_plan009.go:152-181 | creates the page, accepting an existing one only when it is the same |
| `GarbagePlan.Sweep` | internal/portable/checkpoint_gc_plan009.go:71-82 | one listing adds exactly its garbage to the plan |
| `GarbagePlan.PreparePlan` | internal/portable/checkpoint_gc_plan009.go:46-114 | the plan is exactly the eligible unreachable keys in order, its pages are stored, and it fails exactly when a different page exists; while one page holds it all, the listed version of each planned object comes with it |
| `GarbagePlan.AllGarbageIs` | internal/portable/checkpoint_gc_plan009.go:71-92 | the planned entries are, in order and once each, those listed, eligible and not reachable |
| `GarbagePlan.ValidatePlan` | internal/portable/checkpoint_gc_plan009.go:261-295 | succeeds exactly when pages, order, eligibility, counts and digest are those of the plan |
| `GarbagePlan.CheckPage` | internal/portable/checkpoint_gc_plan009.go:261-295 | a page is accepted exactly when its entries continue the valid sequence |
| `GarbagePlan.PreparedIsAuthentic` | internal/portable/checkpoint_gc_plan009.go:261-295 | a prepared plan revalidates |
| `GarbagePlan.AuthenticIsCut` | internal/portable/checkpoint_gc_plan009.go:297-315 | a validated plan's pages are the cut of the entries its digest commits to |
| `GarbageBridge.PlanAvoidsInventory` | internal/portable/checkpoint_gc_plan009.go:46-114 | the pages that the plan builder cuts name no reachable object, and only listed and eligible ones |
| `GarbageBridge.PreparedMayBeRecorded` | internal/portable/checkpoint_gc_plan009.go:94-114 | what the plan builder prepares is authentic and meets the guard under which the protocol records a plan |
| `GarbageBridge.AuthenticMayBeRecorded` | internal/portable/checkpoint_gc_plan009.go:261-315 | so does any validated plan whose digest is that of the garbage, whatever else the store holds |
| `GarbageBridge.RemovedWasUnreachable` | internal/portable/checkpoint_gc_plan009.go:317-378 | in every run whatever is removed for a built plan was listed, eligible and not reachable |
| `GarbageBridge.LostWasUnreachable` | internal/portable/checkpoint_gc_plan009.go:317-378 | in every run an object that is lost to a built plan was listed, eligible and not reachable |
| `DirectoryMerge.PrefixPath` | internal/portable/directory_content_delta.go:15-39 | the path below a prefix is the text of the segments of the prefix and of the path |
| `DirectoryMerge.SplitPath` | internal/portable/directory_content_delta.go:15-20 | the segments of a path hold no slash and spell the path |
| `DirectoryMerge.PlaceEntry` | internal/portable/directory_content_delta.go:41-48 | an entry below a prefix keeps its group and size, and its path is the prefix followed by its own; a path that is not absolute or is the root is refused |
| `DirectoryMerge.PrefixedIsSorted` | internal/portable/directory_content_delta.go:41-48 | entries placed below a prefix are strictly ordered exactly when they were before |
| `DirectoryMerge.KeyPins` | internal/portable/directory_content_delta.go:71-73 | entries with one key agree in group and path, so entry equality compares sizes |
| `DirectoryMerge.Gather` | internal/portable/directory_content_index.go:689-718 | the heads of one key, taken in any order, fill one slot for each role, or two sources of one role repeat the key |
| `DirectoryMerge.DecideIs` | internal/portable/directory_content_index.go:719-733 | the decision on a key fails exactly on a mismatched removal or a colliding addition, and otherwise yields the content of the key |
| `DirectoryMerge.StepKey` | internal/portable/directory_content_index.go:689-733 | one key fails exactly when it is bad and otherwise gives its content |
| `DirectoryMerge.LazyIterator.Next` | internal/portable/directory_content_index.go:689-736 | yields the next entry of the content with nothing wrong and nothing skipped before it, ends exactly when nothing is left and nothing is wrong |
| `DirectoryMerge.Drain` | internal/portable/directory_content_index.go:598-737 | for any number of sources the iteration succeeds exactly when no key is bad, and yields in strict order the base without the removals and with the additions |
| `DirectoryMerge.DrainPrefixed` | internal/portable/directory_content_index.go:598-737 | from stored sources, each below its prefix, the iteration fails exactly when a path cannot be put below its prefix, two sources of a role place one key, a removal is not in the base, or an addition meets another entry that the base keeps, and otherwise yields in strict order the entries of the directory under their prefixed paths |
| `DirectoryPreparation.BuildTrie` | internal/portable/directory_preparation.go:21-37 | the trie holds under each path exactly the position of that path in the request |
| `DirectoryPreparation.Block` | internal/portable/directory_preparation.go:87-95 | sets the code of every selected path at or below a node and nothing else |
| `DirectoryPreparation.Process` | internal/portable/directory_preparation.go:105-145 | settles one child: its verdicts, and its edit exactly when something below it is created |
| `DirectoryPreparation.Walk` | internal/portable/directory_preparation.go:96-165 | below a directory every selected path gets its verdict, nothing else is recorded, and the tree is the prepared one |
| `DirectoryPreparation.PrepareDirectories` | internal/portable/directory_preparation.go:43-193 | refuses exactly the invalid requests; creates exactly the missing selected paths whose missing ancestors are selected and that cross no file; marks every path ready or with the code of what blocks it, and none with both, although different branches write the two fields |
| `DirectoryPreparation.OrderIsIrrelevant` | internal/portable/directory_preparation.go:21-37 | requests that select the same set give the same tree and the same verdicts |
| `DirectoryPreparation.PreparingAgainIsStill` | internal/portable/directory_preparation.go:176-182 | repeating a request changes nothing and answers the same |
| `DirectoryPreparation.NothingIsReplacedOrInvented` | internal/portable/directory_preparation.go:105-145 | what exists stays the very file or directory it was, and whatever is new was selected |
| `AdminRoles.RemoveUser` | internal/identity/admin.go:579-587 | the list without the user, in order |
| `AdminRoles.CommitIsAuthorized` | internal/identity/admin.go:600-626 | a transaction that applies was asked for by an enabled administrator as of that moment, and what it read is current |
| `AdminRoles.CommitGoverns` | internal/identity/admin.go:430-551 | an applied operation leaves every listed administrator enabled and at least one listed |
| `AdminRoles.RunKeeps` | internal/identity/admin.go:430-626 | in every run reads are of the past, the administrators are enabled, distinct and not empty |
| `AdminRoles.AdministratorsRemain` | internal/identity/admin.go:430-577 | in every interleaving from a committed bootstrap every listed administrator is enabled and at least one remains |
| `AdminRoles.JobIsAsStarted` | internal/identity/admin.go:430-577 | however often it retried, an operation under way has the action, actor and target it was started with |
| `AdminRoles.CommitEffect` | internal/identity/admin.go:430-551 | a transaction that applies is the operation that was started, for an enabled administrator, and does to the roles and the target what that operation says: status; the authentication epoch, which stays for enabling and for disabling a disabled target and otherwise is the next one, zero counting as one; every other account is left as it is |
| `AdminRoles.AloneAppliesIff` | internal/identity/admin.go:430-551 | an operation of an administrator that nobody disturbs gets to its transaction exactly when the target is as the operation asks and is not the last administrator it would remove, and then it applies |
| `ResponsePage.PageSize` | internal/httpapi/upload_recovery_response.go:156-207 | a page is its frame, its members and one comma fewer than members |
| `ResponsePage.TotalSize` | internal/httpapi/upload_recovery_response.go:165-182 | the running sum of sizes is the length of the page |
| `ResponsePage.WritePage` | internal/httpapi/upload_recovery_response.go:196-206 | writes the page of the selected members |
| `ResponsePage.EncodeBounded` | internal/httpapi/upload_recovery_response.go:25-52 | the exact page, or overflow exactly when it is over the bound; a nil page is null |
| `ResponsePage.Admit` | internal/httpapi/upload_recovery_response.go:186-195 | exactly the items that fit when their turn comes are full and the others are placeholders, with exact accounting within the bound |
| `ResponsePage.UsedIsSize` | internal/httpapi/upload_recovery_response.go:186-195 | the running count is the length of the page at every step and never passes the bound |
| `ResponsePage.MaximalIff` | internal/httpapi/upload_recovery_response.go:186-195 | the page could take no further full item if and only if no skipped item is freed by what is admitted after it |
| `ResponsePage.MaximalWhenShorter` | internal/httpapi/upload_recovery_response.go:186-195 | that is so when no placeholder after the first skipped item is longer than its full item |
| `ResponsePage.CrowdedIsNotMaximal` | internal/httpapi/upload_recovery_response.go:186-195 | a cohort for which the page could take another full item |
| `ResponsePage.EncodeCapacityPage` | internal/httpapi/upload_recovery_response.go:156-207 | the full page when it fits; else, for a cohort of an allowed size, the page of the admitted full items and the placeholders of the others; fails exactly for a cohort of the wrong size or placeholders over the bound |

## Left out

- Canonical JSON, envelopes, SHA-256, pack compression and the bits of leaf key filters: sizes, digests and filters are abstract.
- Transactions across domains: one transaction is one atomic conditional step, and replaying a transaction by its identifier is not part of `AdminRoles`.
- The dropping and restoring of leaf key filters in child descriptors (`pageChild`): any filter without false negatives is allowed.
- The bound of eight attempts in administrator operations: an attempt may be repeated any number of times.
- Overflow checks of 64-bit counters and of authentication epochs: counters are unbounded.
- Descending collection in `collectOrdered`: it would repeat the ascending proof.
- The pack read cache, goroutine pools and temporary files: page writes and runs are sequences.
- Garbage collection of checkpoints that have no durable plan (`runLegacyCheckpointGarbageCollection`), and conversions between format generations.
- Validation of user paths, names and identifiers; entries of the lazy directory merge are valid and each source is strictly ordered, as the merge itself and the index pages are.
- The paging of lazy directory sources and the streamed directory content index: the same shape as head listing and the tree builder.
- Provider adapters, uploads, sessions, HTTP handling and telemetry.
- TreeRebuild.Rebuild: is about trees without the empty key, which page validation refuses in the source.
- DirectoryPreparation.BuildTrie: builds the trie as a value, so the update of shared nodes in place is not captured.
- DirectoryPreparation.Walk: visits siblings in any order but one after the other; the retry of the publishing head write is part of the head protocol.
- Repack.Closure.Collect: has no branch for a page met inside itself, because with injective digests there is none.
- RepackLayout.RepackClosure: treats sizes and the encoding bound as parameters and does not model that pack identities are derived from the input.
- GarbageQuiet.CollectedOnlyWhileClosed: assumes that nobody writes objects while the gate is closed.

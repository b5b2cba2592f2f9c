# Verified model of the sigmut core

sigmut is a single-threaded push-pull reactive runtime: states push marks (clean, maybe dirty, dirty)
downstream, memos pull and recompute only when a source really changed, effects are queued as reactions, and
caches that nobody listens to are discarded. On top of it, collections keep a history of changes that readers
replay. This project models that machinery in Dafny, in the form the Rust code has (classes updated in place,
loops with invariants, a state machine for the cross-thread part), and proves what the library promises about it.

`dafny verify dfyconfig.toml` checks everything.

## What is modelled

**The reactive graph** (`Dirty`, `Computation`, `GraphState`, `BindingSteps`, `EvaluationSteps`, `Evolution`,
`Runs`, `MarkingSteps`, `LifetimeSteps`, `ReactionOrder`, `ReactionQueue`, `AtRest`, `Discarding`, `Causes`, `StateGuard`,
`Worlds`, `Guarantees`, `Traces`, `Graph`).
A node's function is a finite read tree (`Ret(v)` or `Read(source, v -> tree)`), so dependencies depend on values and
change from run to run; nodes are numbered so that a function reads only smaller numbers. `Graph` is the node table:
marks, caches, source lists, binding tables and all queues, changed by the same nested calls as in the source
(`check`, `update`, `bind`, `notify`, `unbind`, `discard`). `Eval` is evaluation from scratch on the state values
alone, `Need` the set of nodes that evaluation from scratch visits (`ReadPath`). The main theorem is the contract of
`Graph.Execute`: every run of creating nodes, setting, guarded editing, reading, dispatching reactions and discards
and dropping sinks answers every read with the from-scratch value, and its trace shows what each operation did to marks,
caches, reactions and the log (`Did`). `HasToRun` says, of a state before anything runs, which functions have to run;
dispatches and reads run exactly those. `Ready` says what announcing everything queued may do to that state: a mark goes up
only downstream of a state whose notification was queued, so nothing runs for nothing (`Suspect`, `UpToDate`). The invariant
`Inv` is stated for the middle of operations too: `Ctx` lists the nodes that are running, being notified, or waiting to be
resolved.

`Graph` methods are specified by functions on a snapshot (`View()`), and the lemmas in the other files are about these
functions and the relations between snapshots. `seen`, `ran` and `calling` are ghost: what each node read at each source
position, the order in which functions ran, and the reaction in progress.

**Change feeds and collections** (`Permutations`, `Sorting`, `FeedState`, `ChangeFeed`, `Mirrors`, `VecHistory`, `StateVec`,
`SlabHistory`, `StateSlabMap`, `SlabSinks`, `SlabMarks`, `WatchedSlab`, `DerivedFeed`, `DerivedSlab`, `FeedUse`, and the
whole runs in `VecRuns`, `SlabRuns`, `WatchedSlabRuns`, `DerivedFeedRuns`, `DerivedSlabRuns`). `ChangeFeed` is the
reference-counted history with ages modulo the machine word, deferred reader operations and compaction; readers and borrow
guards are handles in a table. `StateVec` and `StateSlabMap` add the slab and the edits; their ghost `contents` is the value
at every position of the log, and `mirror` what each reader saw when it last read. `View()` is what everybody who holds a
reader or a borrow sees; `VecRuns` and `SlabRuns` carry the replay promise through whole runs with overlapping borrows.
`WatchedSlab` is the slab map together with its dependants. `DerivedFeed` is the node of a change feed with sources: the
verdict of the source check and the changes that the scan records are parameters. `DerivedSlab` is the derived slab map with
its bindings per key. The runs of these three say that every check answers dirty exactly if a change (in the dependant's
slot) was recorded since the dependant was bound.

**Queues and wake-up** (`Buckets`, `Dispatch`, `Wakes`). Phase buckets over the two-ended index map, action dispatch on
top of them, and the wake-up protocol as a state machine whose steps are the locked sections, in any interleaving.

## Findings

- `sort_as` calls the unstable sort when `stable` is true and the stable one otherwise (src/collections/vec.rs:721-725), against the
  names of its callers. `StateVecs.StateVec.SortAs` keeps the branches as they are. `Sorting.StabilityShows` says exactly when
  nobody can tell: a sort that need not be stable always gives the stable result if and only if no two items compare equal.
  `Sorting.TiedPairShows` is an input where it shows: two tied items that come out swapped.
- A waker that is woken and dropped before the next `apply_wake` is not served: removals are applied first.
  `WakeProtocol.DroppedWakerIsNotServed` is such a run, and `WakeProtocol.ServedUnlessDropped` says for every run that a
  request is served by the next application if and only if its waker was not dropped in between.
- `wait_for_ready` may wait although `flush` has something to do: it is not woken by deferred unbinds and dropped wakers,
  and never looks at scheduled discards (src/core.rs:205-219, src/core.rs:629-645). `WakeProtocol.QuietRequests` is a possible
  run where all three wait, and `WakeProtocol.WaitsWithNothingToDo` says for every run that a waiter waits with nothing left to
  do if and only if no deferred unbind was pushed and no waker dropped since the last poll, and no discard was left over.

## Model

| member | source | states |
|---|---|---|
| ReactiveGraph.Graph.Execute | README.md:123-128 | every run of operations answers each read exactly as evaluation from scratch on the state values of that moment would, and leaves the same states and nodes; the trace holds the state after every operation, and from each to the next the operation did to marks, caches, reactions and the log what its own contract says |
| ReactiveGraph.Graph.Perform | src/core.rs:560-601 | the same for one operation from any reachable state |
| Traces.EffectsAreCurrent | src/core.rs:591-601 | wherever a run dispatches reactions, every live effect of the phase ends with the result and the values that evaluation from scratch gives at that moment |
| ReactiveGraph.Graph.Read | src/signal/builder/scan.rs:151-160 | a read returns the from-scratch value; only functions that evaluation from scratch of this node needs are run, each at most once, and only those that had to run once everything queued was announced, the node itself exactly if it had to; whoever ran was not clean or downstream of a queued notification, and a node that is up to date, as it is after a read, is read without running anything |
| ReactiveGraph.Graph.ReadIn | src/core.rs:863-892 | a read inside a function binds the source at the next position, returns its from-scratch value and leaves the position settled |
| ReactiveGraph.Graph.RunReads | src/core.rs:791-822 | running a function records its reads in order from position 0 and ends with the result of its read tree on the values read, and the log grows by exactly this run after what the reads ran |
| ReactiveGraph.Graph.Run | src/core/source_binder.rs:29-37 | a run cleans the node, records exactly the new dependencies, and replaces the cache unless an equal value is filtered; the log ends with this run |
| ReactiveGraph.Graph.Check | src/core.rs:745-747 | after a source is brought up to date its binding is clean or dirty, and clean means unchanged since it was read |
| ReactiveGraph.Graph.CheckSources | src/core.rs:768-775 | sources are checked in order up to the first that really changed; all earlier ones are settled |
| ReactiveGraph.Graph.CheckBinder | src/core.rs:776-781 | a check that finds nothing leaves the node clean, not run, and every source unchanged; otherwise there was a reason to run |
| ReactiveGraph.Graph.Evaluate | src/signal/builder/scan.rs:219-223 | the function runs exactly if the node had a reason; not running means every source still has the value that was read and is clean; a filtering memo is reported changed exactly if its cached value is another one, any other memo exactly if it ran |
| ReactiveGraph.Graph.Update | src/signal/builder/scan.rs:213-225 | afterwards the node is clean, only smaller nodes were worked on, nodes that were clean or still are not are untouched, bindings are resolved exactly, and whoever was evaluated ran exactly if it had a reason |
| ReactiveGraph.Graph.UpdateKeep | src/signal/signal_t/keep.rs:26-36 | the same for a keep node, which stays bound to its signal |
| ReactiveGraph.Graph.BindingIsDirty | src/core.rs:917-923 | the answer for a binding that is clean or dirty; every caller shows that it never asks about a possibly dirty one |
| ReactiveGraph.Graph.BindSource | src/core.rs:863-892 | a source at the same position is reused with a clean mark, otherwise a new entry replaces the old dependency, which is unbound |
| ReactiveGraph.Graph.DrainFrom | src/core.rs:817-821 | all dependencies past the given length are unbound at their sources, the others stay |
| ReactiveGraph.Graph.TryScheduleDiscard | src/signal/builder.rs:274-292 | exactly a live memo that is not pinned, has no binding and is not scheduled is appended to the discard queue; nothing changes otherwise |
| ReactiveGraph.Graph.NotifySinks | src/core.rs:929-937 | every binding is at least at the given level, every live sink below is marked; marks go up only downstream of the node, and to dirty only with a dirty notification along a chain without comparing memos; besides marks only the reaction queue changes |
| ReactiveGraph.Graph.NotifyNode | src/signal/builder/scan.rs:197-203 | a live sink is marked at least at the given level and tells its own sinks if it was clean; only marks downstream of it go up, and a dropped one changes nothing |
| ReactiveGraph.Graph.NotifyMemo | src/signal/builder/scan.rs:197-203 | a clean memo that does not compare passes a dirty notification on as dirty to all its bindings |
| ReactiveGraph.Graph.OnNotify | src/core/source_binder.rs:43-50 | the larger mark wins, dependants are to be told iff the node was clean, and a clean effect is queued |
| ReactiveGraph.Graph.Set | src/state.rs:95-98 | the new value is stored, every binding of the state is dirty and every live reader marked, also when the value is the same; marks go up only downstream of the state |
| ReactiveGraph.Graph.SetDedup | src/state.rs:101-110 | as set for a different value, nothing at all for an equal one |
| ReactiveGraph.Graph.EditGuarded | src/state.rs:220-311 | dropping a guard leaves the value of the last write, or the old one if nothing was written; a guard whose first use was a write always announces, one that deduplicated first only another value; an announcement marks every reader, and only what is downstream, at once, or queues the notification for a loose guard; otherwise nothing changes |
| ReactiveGraph.Graph.UseGuard | src/state.rs:220-262 | the guard's mark decides as the announcement rule does, and the value is that of the last write, or the one found |
| StateGuard.MarkDecides | src/state.rs:256-262 | a guard announces a change iff something was written and, when it deduplicated before the first write, the value is another one |
| StateGuard.FirstDecides | src/state.rs:220-262 | an unused guard announces nothing, one first used for a write always announces, one first made deduplicating exactly another value |
| StateGuard.SomeLastWrite | src/state.rs:299-311 | through a guard that was written to at all there is a last write, whose value `Written` keeps |
| Worlds.EditStores | src/state.rs:299-311 | in the world that runs are compared with, a guarded edit stores the value written last |
| ReactiveGraph.Graph.ApplyUnbind | src/core.rs:602-615 | all deferred unbinds are carried out: only bindings that were queued go, all others keep their marks, and nothing else about nodes changes |
| ReactiveGraph.Graph.ApplyNotify | src/core.rs:616-628 | all scheduled notifications are carried out: every reader of the states queued is told, a mark goes up only downstream of one of them, nothing changes but deferred unbinds if none was queued; no function runs, no cache, dependency or value read changes |
| ReactiveGraph.Graph.CallEffect | src/effect_fn.rs:79-84 | an effect runs exactly if it has a reason; if it does not run, all its sources are unchanged; its reaction is gone |
| ReactiveGraph.Graph.DispatchReactions | src/core.rs:591-601 | over a whole dispatch: every live effect of the phase is clean, ran exactly if it had to when everything queued was announced, and if not all its sources are unchanged; each function ran at most once, and only functions that evaluation from scratch of these effects needs, of nodes that were not clean or downstream of a queued notification; effects ran by ascending phase and within a phase in the order they were scheduled, reactions of other phases are left in their order, and it reports work exactly if a reaction of the phase was pending |
| ReactiveGraph.Graph.DiscardNext | src/signal/builder/scan.rs:237-244 | the discard scheduled last is taken; an unheard memo loses cache and dependencies and is dirty, a heard one keeps everything, and so does every other node but for the entries of the dependencies that were cut; the number of bindings or that of scheduled discards goes down |
| ReactiveGraph.Graph.DispatchDiscards | src/core.rs:629-645 | it terminates; a live memo then holds something exactly if it did before and was pinned or listened to by a root over live listeners, and those, and everything that is no memo, keep cache, dependencies and mark; it reports work exactly if a discard or an unbind was queued |
| Discarding.DiscardsAreExact | src/core.rs:629-645 | once the queues are empty, what was not wanted by a root holds nothing, and what was wanted holds what it held |
| Discarding.ScheduledIsDiscardable | src/signal/builder.rs:197-205 | no pinned or dropped node, and nothing but a memo, is ever scheduled for discarding |
| ReactiveGraph.Graph.AddNode | src/effect_fn.rs:44-51 | the table grows by one live node, a state with its first value and clean, anything else dirty and unbound; a new effect is scheduled |
| ReactiveGraph.Graph.DropNode | src/core.rs:834-840 | the node is no longer live, and its dependencies wait at the end of the deferred unbind queue in their order |
| ReactionOrder.BatchSplits | src/core.rs:151-155 | a dispatch takes exactly the reactions of its phase and leaves the others |
| ReactionOrder.ByPhaseSorted | src/utils/buckets.rs:54-61 | dispatching everything goes by ascending phase |
| ReactionOrder.ByPhaseIsDrained | src/utils/buckets.rs:54-61 | dispatching everything takes the reactions by ascending phase, and within a phase in the order they were scheduled |
| ReactionOrder.BucketsDrain | src/utils/buckets.rs:54-61 | phase buckets that hold the reactions are drained in exactly that order |
| ReactionOrder.BatchInTurn | src/utils/buckets.rs:47-61 | of two effects in a batch the first has the smaller phase, or the same phase and stood first among the pending reactions |
| ReactionOrder.BatchRanInTurn | src/core.rs:591-601 | when the batch is run from front to back the log shows the effects in that order, whatever else runs in between |
| ReactionOrder.RestIsLeft | src/utils/buckets.rs:47-53 | the reactions of other phases are left in the order they had |
| ReactionQueues.PushReaction | src/core.rs:94-104 | the buckets hold the list of pending reactions, one more at its end, each under its phase in order |
| ReactionQueues.GetReactions | src/core.rs:151-155 | what is taken from the buckets is exactly the batch of the dispatch, and they go on holding exactly its rest |
| Guarantees.BindingsAreConserved | src/core.rs:791-840 | every entry of a binding table is held at exactly one source position or waits exactly once for its deferred unbind, and nothing else is held |
| Guarantees.NoOrphans | src/core.rs:602-615 | after deferred unbinds were applied, every entry belongs to a source position of a live node |
| Guarantees.MarksReachDown | src/core.rs:929-937 | whatever is downstream of a node that is not clean is not clean |
| Guarantees.SetReachesDown | src/core.rs:929-937 | after a set everything strictly downstream of the state is marked |
| Guarantees.SetMakesSuspects | src/core.rs:929-937 | after a set the nodes that may run are exactly those that might have run before and those strictly downstream of the state |
| Guarantees.SetElsewhere | src/core/source_binder.rs:43-50 | a node that is not downstream of the state is no more suspect after a set than before, so nothing runs for it |
| Guarantees.LooseEditElsewhere | src/state.rs:304-310 | the same for a loose edit whose notification is only queued |
| Guarantees.ReadyMarksSuspects | src/core.rs:616-627 | once everything queued is announced exactly the nodes that were not clean or downstream of a queued notification are not clean |
| AtRest.StaysUpToDate | src/signal/builder/scan.rs:213-217 | a node that is up to date stays so when everything queued is announced |
| Guarantees.MarksAgree | src/core.rs:917-945 | a node that is not clean has no clean binding; clean nodes and states have no possibly dirty one; a marked binding has a marked live sink |
| Guarantees.CleanMemoIsCurrent | src/signal/builder/scan.rs:213-217 | a clean memo holds the from-scratch value, which is why an update may return at once |
| Guarantees.CleanEffectSawLatest | src/effect_fn.rs:79-84 | a clean effect last ran on what are still the current values of everything it read |
| Guarantees.OneReactionEach | src/effect_fn.rs:91-95 | a live effect has exactly one pending reaction when not clean and none when clean |
| Guarantees.OneDiscardEach | src/signal/builder/scan.rs:230-236 | a memo that holds something unheard has exactly one discard scheduled |
| AtRest.DiscardsAreComplete | src/core.rs:629-645 | with no discard and no unbind queued, whatever holds anything is reachable from a root |
| Runs.NothingFound | src/core.rs:768-775 | if no binding turned out dirty, the node had no reason to run and all its sources are unchanged |
| Runs.FoundIsReason | src/core.rs:768-775 | a dirty binding found by the check is a reason: it was already dirty, its source's cache was outdated, or its source, which does not compare, ran again |
| Evolution.AllDecidedTrans | src/core.rs:768-781 | over two evaluations in a row it remains true that whoever was evaluated ran exactly if it had a reason |
| Causes.ReasonIsCause | src/core.rs:768-781 | for a node that was evaluated, having a reason is the same as having to run, which speaks of the state before anything ran: marked dirty, or behind a dirty binding, a comparing source with another value, or a source that does not compare and has to run itself |
| Causes.OutdatedIsChanged | src/signal/builder/get.rs:48-60 | behind a binding that may be dirty, a cache is outdated exactly if its value is not the one the reader read |
| Causes.DispatchIsExact | src/effect_fn.rs:76-95 | over a dispatch every live effect of the phase ran exactly if it had to at the start; if not, everything it last read is unchanged |
| Causes.ReadIsExact | src/core.rs:768-781 | over a read only functions that had to run were run, and the memo read exactly if it had to |
| Runs.CheckNeed | src/core.rs:768-775 | a source checked after all earlier ones were confirmed unchanged is one that evaluation from scratch needs too |
| Computation.NeedIsReached | src/core.rs:863-892 | a node is needed by evaluation from scratch exactly if a chain of reads that evaluation makes leads to it |
| Computation.NeedsNoEffect | src/core.rs:591-601 | evaluation from scratch needs no effect but the one it is asked for |
| Computation.AdvanceMeaning | src/core.rs:791-822 | a recorded prefix that agrees with the current values leads evaluation from scratch through the same reads |
| Computation.TargetMeaning | src/signal/signal_t/keep.rs:41-49 | reading through keep nodes means reading their signal |
| Permutations.ApplyTo | src/utils.rs:65-77 | in place, index i receives the item from new_to_old[i]; with fewer swaps than items |
| Permutations.BuildOldToNew | src/utils.rs:57-63 | the inverse permutation |
| Permutations.IsSorted | src/utils.rs:197-204 | true iff non-decreasing |
| Permutations.SortedIsIdentity | src/collections/vec.rs:726-728 | a permutation is non-decreasing iff it is the identity |
| Permutations.PermutedKeepsAll | src/utils.rs:65-77 | applying a permutation keeps all items |
| Permutations.ToRange | src/utils.rs:206-220 | the range holds exactly the indices inside both bounds |
| ChangeFeeds.ChangeFeed.Compact | src/building_blocks/change_feed.rs:205-212 | when nothing is borrowed, pending operations are applied and history starts exactly at the oldest live cursor; released changes come out in order; otherwise nothing happens |
| ChangeFeeds.ChangeFeed.AgeToIndex | src/utils.rs:139-143 | a wrapped age finds the index of its position, and the assertion never fails |
| ChangeFeeds.ChangeFeed.ApplyOneIncrement | src/utils.rs:188-190 | one pending increment moves into the stored counts |
| ChangeFeeds.ChangeFeed.ApplyOneDecrement | src/utils.rs:191-193 | one pending decrement is carried out: the count at its position, never zero, is one lower |
| ChangeFeeds.ChangeFeed.Clean | src/utils.rs:144-153 | exactly the changes before the oldest live cursor are given up |
| ChangeFeeds.ChangeFeed.Read | src/building_blocks/change_feed.rs:358-363 | the borrow shows the changes since the reader's cursor, which moves to the end |
| ChangeFeeds.ChangeFeed.Peek | src/building_blocks/change_feed.rs:365-367 | the same borrow without moving the cursor |
| ChangeFeeds.ChangeFeed.BorrowCurrent | src/building_blocks/change_feed.rs:138-147 | a borrow that shows no changes |
| ChangeFeeds.ChangeFeed.Delta | src/building_blocks/change_feed.rs:245-250 | exactly the changes recorded since the borrow's position |
| ChangeFeeds.ChangeFeed.CloneReader | src/building_blocks/change_feed.rs:370-381 | a clone stands at the same position and is accounted for |
| ChangeFeeds.ChangeFeed.DropReader | src/building_blocks/change_feed.rs:383-389 | a dropped reader gives up its count |
| ChangeFeeds.ChangeFeed.BeginEdit | src/building_blocks/change_feed.rs:164-175 | pending end increments are applied before anything can be recorded |
| ChangeFeeds.ChangeFeed.Record | src/building_blocks/change_feed.rs:327-330 | the change is appended; readers at the end now stand before it |
| ChangeFeeds.ChangeFeed.EndEdit | src/building_blocks/change_feed.rs:333-355 | the edit reports a change iff it recorded one |
| FeedState.ApplyDecrementKeeps | src/utils.rs:122-127 | with increments applied first, no decrement finds a zero count |
| FeedState.CleanedIsTight | src/utils.rs:144-153 | where cleaning stops a live reader stands, and none stands before |
| FeedState.AgeFindsItem | src/utils.rs:139-143 | wrapping subtraction of ages gives the distance of positions |
| FeedState.PushKeeps | src/utils.rs:107-111 | pushing keeps counts and cursors in balance |
| VecHistory.DeltaReplays | src/collections/vec.rs:181-194 | replaying the delta from any kept position on the items of that position gives the current items |
| VecHistory.InitialReplays | src/collections/vec.rs:195-200 | the first delta builds the current items from nothing |
| VecHistory.KeyLifetime | src/collections/vec.rs:740-751 | every stored key is at one index of the vector or was taken away by one kept change, never both, and no such key is missing |
| VecHistory.ForgottenIsSound | src/collections/vec.rs:740-751 | releasing the oldest change frees a key that is there and that nothing kept refers to |
| VecHistory.RecordedIsSound | src/collections/vec.rs:700-704 | recording a change with fresh keys keeps all kept positions resolvable to their old values |
| VecHistory.NothingKept | src/collections/vec.rs:740-751 | without kept changes the slab holds just the current items |
| VecHistory.EditResolves | src/collections/vec.rs:570-599 | resolving keys to values commutes with editing |
| VecHistory.EditBalance | src/collections/vec.rs:296-346 | what every change takes out of and puts into the vector |
| VecHistory.RotatedIsMoved | src/collections/vec.rs:336-346 | the rotations of a move take the item out and put it in at the new index |
| VecRuns.Execute | src/collections/vec.rs:110-142 | any run of edits, reads, peeks, clones, drops and overlapping borrows: everybody sees what they should, and every delta shown leads from what its borrow builds on to the current items |
| VecRuns.EditOnce | src/collections/vec.rs:620-629 | a mutable borrow with any edits changes the items as they say and nothing that readers have seen |
| StateVecs.StateVec.ReadDelta | src/collections/vec.rs:110-121 | whatever happened since a reader's last read, its delta leads from what it saw to the current items; nothing stays borrowed |
| StateVecs.StateVec.NewReader | src/collections/vec.rs:614-616 | a reader that has read nothing |
| StateVecs.StateVec.CloneReader | src/building_blocks/change_feed.rs:370-381 | a reader that has read what the original has |
| StateVecs.StateVec.DropReader | src/building_blocks/change_feed.rs:383-389 | the reader is gone, all others and all borrows see what they saw |
| StateVecs.StateVec.Peek | src/collections/vec.rs:134-141 | the borrow builds on what this reader saw last; all readers and other borrows see what they saw |
| StateVecs.StateVec.BorrowCurrent | src/collections/vec.rs:617-619 | the borrow shows no changes |
| StateVecs.StateVec.DropGuard | src/building_blocks/change_feed.rs:253-258 | the borrow is closed, all others see what they saw |
| StateVecs.StateVec.Read | src/collections/vec.rs:110-121 | the borrow builds on what this reader saw last, which is now the current items; other readers and borrows see what they saw |
| StateVecs.StateVec.Delta | src/collections/vec.rs:181-194 | replaying the delta of an open borrow on its baseline gives the current items |
| StateVecs.StateVec.Insert | src/collections/vec.rs:296-299 | the item is inserted, every kept delta stays right |
| StateVecs.StateVec.Remove | src/collections/vec.rs:304-307 | the item is removed |
| StateVecs.StateVec.Set | src/collections/vec.rs:311-320 | the item is replaced |
| StateVecs.StateVec.Swap | src/collections/vec.rs:321-329 | the two items change places, every other item stays; nothing is recorded for equal indices |
| StateVecs.StateVec.SwapRemove | src/collections/vec.rs:330-335 | the last item takes the place of the removed one, every other item stays where it was |
| StateVecs.StateVec.MoveItem | src/collections/vec.rs:336-346 | the item is at the new index, those in between close up or make room; nothing is recorded for equal indices |
| StateVecs.StateVec.SortAs | src/collections/vec.rs:712-731 | the items end up in order and are the same items; the recorded permutation is that of the branch taken, and nothing is recorded exactly if it is the identity; it is stable if the unstable branch is not taken or no two items compare equal |
| StateVecs.StateVec.ApplyOrder | src/collections/vec.rs:726-731 | the items are permuted as recorded, and nothing is recorded exactly if the permutation is the identity |
| Sorting.SortIndices | src/collections/vec.rs:718-725 | for every total preorder there is a stable sorting permutation |
| Sorting.StableIsUnique | src/collections/vec.rs:721-725 | there is only one stable sorting permutation |
| Sorting.StabilityShows | src/collections/vec.rs:721-725 | every sorting permutation is the stable one if and only if no two items compare equal |
| Sorting.TiedPairShows | src/collections/vec.rs:721-725 | for two items that compare equal the swapping order sorts them too and is not stable |
| StateVecs.StateVec.Drain | src/collections/vec.rs:376-384 | the range is gone, recorded as removals of its keys from the back to the front |
| StateVecs.StateVec.EndBorrow | src/building_blocks/change_feed.rs:333-355 | without readers the slab then holds just the keys of current items |
| StateVecs.BuildModel | src/collections/vec.rs:671-679 | a vector built from values holds them in order, each under its own key |
| SlabHistory.DeltaReplays | src/collections/slab_map.rs:146-169 | replaying the delta from any kept position on the live items of that position gives the live items |
| SlabHistory.TombstonesAreRemovals | src/collections/slab_map.rs:227-236 | a key in the slab is live, or a tombstone with exactly one unreleased removal |
| SlabHistory.InsertionIsSound | src/collections/slab_map.rs:217-226 | an inserted key is new to everything kept |
| SlabHistory.RemovalIsSound | src/collections/slab_map.rs:227-236 | a removed item stays readable for kept changes |
| SlabHistory.ForgottenIsSound | src/collections/slab_map.rs:252-256 | releasing a removal deletes a tombstone that nothing kept refers to |
| SlabRuns.Execute | src/collections/slab_map.rs:97-115 | any run of insertions, removals, reads, peeks, clones, drops and overlapping borrows: keys are new, everybody sees what they should, and every delta shown leads from what its borrow builds on to the live items |
| StateSlabMaps.StateSlabMap.ReadDelta | src/collections/slab_map.rs:97-105 | whatever happened since a reader's last read, its delta leads from what it saw to the live items; nothing stays borrowed |
| StateSlabMaps.StateSlabMap.Read | src/collections/slab_map.rs:97-105 | the borrow builds on what this reader saw last, which is now the live items; other readers and borrows see what they saw |
| StateSlabMaps.StateSlabMap.Peek | src/collections/slab_map.rs:107-115 | the borrow builds on what this reader saw last; all readers and other borrows see what they saw |
| StateSlabMaps.StateSlabMap.Delta | src/collections/slab_map.rs:146-169 | replaying the delta of an open borrow on its baseline gives the live items |
| StateSlabMaps.StateSlabMap.InitialChanges | src/collections/slab_map.rs:146-153 | the first delta inserts every live item, len of them |
| StateSlabMaps.StateSlabMap.Insert | src/collections/slab_map.rs:217-226 | the key is not live before and maps to the value after; len follows |
| StateSlabMaps.StateSlabMap.Remove | src/collections/slab_map.rs:227-236 | the key is no longer live; len follows |
| StateSlabMaps.StateSlabMap.Get | src/collections/slab_map.rs:208-215 | exactly the live items are found |
| StateSlabMaps.StateSlabMap.RecordPending | src/collections/slab_map.rs:265-274 | the pending changes go to the feed in order, and their keys are returned |
| StateSlabMaps.StateSlabMap.InsertNow | src/collections/slab_map.rs:355-362 | insert as one edit up to the notification of the dependants: the returned key was not live and the history grows by its insertion |
| StateSlabMaps.StateSlabMap.RemoveNow | src/collections/slab_map.rs:367-373 | remove as one edit up to the notification of the dependants: the history grows by the removal |
| WatchedSlabs.WatchedSlab.Insert | src/collections/slab_map.rs:355-365 | the insertion together with its notifications: the mark of every dependant, of a key or of the whole map, is exact for the longer history |
| WatchedSlabs.WatchedSlab.Remove | src/collections/slab_map.rs:367-375 | the same for a removal |
| WatchedSlabs.WatchedSlab.Watch | src/collections/slab_map.rs:402-404 | the dependant is bound at the end of the history, all other bindings stay |
| WatchedSlabs.WatchedSlab.Check | src/collections/slab_map.rs:492-494 | a dependant of a key is dirty iff the key was inserted or removed since it was bound, one of the whole map iff anything was; a key without a table counts as changed |
| WatchedSlabRuns.Execute | src/collections/slab_map.rs:344-390 | in any run of insertions, removals, reads, checks and unbinds keys are new and every check says exactly whether a key in its slot was inserted or removed since the binding was made |
| SlabSinks.SinkBindingsSet.UpdateSinks | src/collections/slab_map.rs:613-633 | of the pending bindings exactly those of changed keys become dirty, those of the whole map iff anything changed, all others clean |
| SlabSinks.SinkBindingsSet.UpdateChanged | src/collections/slab_map.rs:516-525 | only the bindings of the given keys and of the whole map are settled |
| SlabSinks.SinkBindingsSet.BindItem | src/collections/slab_map.rs:541-550 | a clean binding is added to the table of its key, tables are made up to it, all others stay |
| DerivedSlabRuns.Execute | src/collections/slab_map.rs:613-642 | in any run of source notifications, reads, checks and unbinds every check answers dirty exactly if a change in its slot was recorded since the dependant was bound |
| DerivedSlabs.DerivedSlab.Check | src/collections/slab_map.rs:684-687 | after an update a dependant of a key is dirty iff a change of that key was recorded since it was bound, one of the whole map iff any was; the history grows by what the scan did and nobody is bound elsewhere |
| DerivedSlabs.DerivedSlab.Update | src/collections/slab_map.rs:613-633 | if a source changed the scan's edits are made and recorded, at most one change each, and every open question is settled by the keys they changed |
| DerivedSlabs.DerivedSlab.RunScan | src/collections/slab_map.rs:265-291 | the edits happen one after the other, inserted keys are new, and the keys returned are those of the changes recorded |
| DerivedSlabs.DerivedSlab.Watch | src/collections/slab_map.rs:639-642 | after an update the dependant is bound to its slot at the end of the history, and everybody else is bound where they were |
| DerivedSlabs.DerivedSlab.Unbind | src/collections/slab_map.rs:552-556 | this binding is gone, everybody else is bound where they were |
| DerivedSlabs.DerivedSlab.OnSourceNotify | src/collections/slab_map.rs:703-710 | a notification of a source makes all dependants possibly dirty |
| DerivedFeeds.DerivedFeed.Check | src/building_blocks/change_feed.rs:612-615 | once scheduled notifications are applied, a dependant is dirty iff a change was recorded since it was bound; the history grows by what the scan recorded |
| DerivedFeeds.DerivedFeed.Update | src/building_blocks/change_feed.rs:568-585 | open questions are settled by whether the scan recorded anything |
| DerivedFeeds.DerivedFeed.EditDirectly | src/building_blocks/change_feed.rs:523-544 | queued notifications are applied first, source changes come before those of the edit, and an edit that changed something is announced, at once or later, whatever the scan did |
| DerivedFeeds.DerivedFeed.OnSourceNotify | src/building_blocks/change_feed.rs:626-639 | a notification of a source makes dependants possibly dirty |
| DerivedFeeds.DerivedFeed.ApplyNotify | src/building_blocks/change_feed.rs:627-631 | a scheduled notification makes all dependants dirty |
| DerivedFeeds.DerivedFeed.Watch | src/building_blocks/change_feed.rs:587-595 | a dependant is bound, clean, at the end of the history, all others stay bound where they were |
| DerivedFeedRuns.Execute | src/building_blocks/change_feed.rs:568-639 | in any run of source and scheduled notifications, reads, checks, unbinds and direct edits every check answers dirty exactly if a change was recorded since that dependant was bound |
| PhaseBuckets.ISizeMap.Prepare | src/utils/isize_map.rs:47-68 | growing at either end stores the range and keeps every value |
| PhaseBuckets.Buckets.Push | src/utils/buckets.rs:37-41 | the item is last in its bucket, other buckets are untouched, the bounds are exact |
| PhaseBuckets.Buckets.PopFront | src/utils/buckets.rs:42-46 | the oldest item of the bucket |
| PhaseBuckets.Buckets.UpdateBounds | src/utils/buckets.rs:63-78 | the bounds are again the least and the greatest id under which something waits |
| PhaseBuckets.Buckets.DrainOne | src/utils/buckets.rs:47-53 | all items of one bucket in order |
| PhaseBuckets.Buckets.DrainAll | src/utils/buckets.rs:54-61 | everything, by ascending id and in order within an id |
| PhaseBuckets.Buckets.UptoSplit | src/utils/buckets.rs:54-61 | in what is drained, the queue of an id stands in one piece after those of all smaller ids and before those of all greater ones |
| PhaseBuckets.Buckets.Ids | src/utils/buckets.rs:30-32 | exactly the ids under which something waits, ascending |
| PhaseBuckets.Buckets.EmptyMeans | src/utils/buckets.rs:27-29 | the mark for empty means that nothing waits anywhere |
| ActionDispatch.Dispatcher.Activate | src/core.rs:71-93 | a configuration is accepted iff it allows every queued action and reaction phase and no runtime is active; a refusal changes nothing |
| ActionDispatch.Dispatcher.ScheduleReaction | src/core.rs:94-136 | accepted iff the active runtime has the reaction phase; a refusal changes nothing |
| ActionDispatch.Dispatcher.Schedule | src/core.rs:105-142 | accepted iff the active runtime has the phase; an accepted action is last in the queue of its phase, a refusal changes nothing |
| ActionDispatch.Dispatcher.DispatchOne | src/core.rs:571-577 | the oldest action of the phase runs and leaves its queue, other queues stay |
| ActionDispatch.Dispatcher.TakeBatch | src/core.rs:162-169 | the batch is what was queued, by ascending phase and in the order of scheduling within a phase, and the queues taken from are empty |
| ActionDispatch.Dispatcher.RunNext | src/core.rs:578-589 | the batch runs in order; per phase, ran, batch and queue together are what was scheduled |
| WakeProtocol.NoLostWakeUp | src/core.rs:205-235 | in every interleaving, a waiter whose last poll was Pending and whose waker has not fired finds no action, reaction, notification or wake request waiting, and every delivered wake reached the registration it was meant for |
| WakeProtocol.QueuedIsExact | src/core.rs:182-204 | in every run what is queued is as much as was scheduled and as many wake requests as were served since the last dispatch |
| WakeProtocol.WokenIsQueued | src/core.rs:182-204 | after a wake request is served, no later state before a dispatch has an empty queue, and none has a waiter whose waker is not being fired |
| WakeProtocol.WaitingIs | src/core.rs:205-235 | in every run somebody waits, the next schedule fires, or a waker is stored, exactly if a poll returned Pending and since then no poll began and nothing was fired, none began and nothing was scheduled, or nothing was fired |
| WakeProtocol.WaitsWithNothingToDo | src/core.rs:205-221 | in every run a waiter waits with nothing left to do iff no deferred unbind was pushed and no waker dropped since its last poll, and no scheduled discard was left over |
| WakeProtocol.ServedUnlessDropped | src/core.rs:182-204 | in every run a wake request is served by the next application iff its waker was not dropped in between |
| WakeProtocol.DroppedWakerIsNotServed | src/core.rs:182-204 | a possible run in which a request goes unserved |
| WakeProtocol.InvKept | src/core.rs:1346-1357 | every locked section keeps the protocol's invariant |
| WakeProtocol.DeliverIsExact | src/core.rs:182-204 | exactly the requests of wakers that still exist are served, each to its own registration, although keys are reused |
| WakeProtocol.ServedInOrder | src/core.rs:187-199 | requests are served in the order in which they were made, each on its own |
| WakeProtocol.ApplyWakeKept | src/core.rs:182-204 | what one application of the requests delivers |
| WakeProtocol.QuietRequests | src/core.rs:205-221 | a possible run after which a deferred unbind, a dropped waker and a scheduled discard wait together with the waiter |
| WakeProtocol.WakeWhilePolling | src/core.rs:215-235 | a possible run in which a request comes between the two halves of a poll, which then does not return Pending |
| WakeProtocol.WakeWhileFiring | src/core.rs:229-235 | a possible run in which a request and the drop of its waker come while a stored waker is being fired |

## Left out

- Worlds.Allowed: dropping a state or a memo is modelled by `Graph.DropNode` but is not an operation of `Execute`, because reference counts decide when it happens and no read can observe it.
- ReactiveGraph.Graph.ApplyUnbind: the groups of deferred unbinds are kept as one list, so the outer swap of buffers is not modelled.
- ReactiveGraph.Graph.DispatchReactions: the functions of effects only read; actions that effects schedule are not modelled.
- Runs.CheckNeed: it speaks of nodes without `untrack` inside functions, of acyclic graphs, and of loose guards that are not dropped in the middle of a read.
- Computation.AdvanceMeaning: general `from_scan` memos, whose state depends on history, are not covered, and `map_raw` functions with reads of their own are not modelled.
- Permutations.ApplyTo: a slice that is not a permutation is not covered; the source never builds one.
- ChangeFeeds.ChangeFeed.Record: here and in every edit that records, the number of kept changes is assumed to be below the machine word, as memory ensures; reference counts are unbounded numbers, so their overflow panic is not modelled.
- StateVecs.StateVec.SortAs: the library's unstable sort is a parameter of which only the specification is known, and the comparator is a total preorder, without which the library promises no order.
- StateVecs.StateVec.Delta: the constant sources of `SignalVec` (a shared vector or slice) and iterators are not modelled.
- SlabSinks.SinkBindingsSet.BindItem: replacing a binding of a slab map by one to another key of the same map re-enters its own borrow in the source; the model has no such borrow. In a derived map a key without a table matters to nobody who is bound, so how it is answered there is not modelled.
- DerivedFeeds.DerivedFeed.Update: the check of the sources and the scan are parameters; the graph above models how checks are answered.
- DerivedFeeds.DerivedFeed.EditDirectly: nothing else happens between the opening and the drop of a guard; other queued notifications that are applied with this one belong to other nodes.
- DerivedSlabs.DerivedSlab.MakeEdits: a scan that removes a key that is not live panics in the source; here the removal does not happen.
- PhaseBuckets.Buckets.Push: the id must lie below `isize::MAX`, which the source uses as its mark for empty; phases are `i8`. Indices are otherwise unbounded numbers.
- ActionDispatch.Dispatcher.RunNext: the end of a runtime, which throws queued actions away, is not modelled.
- WakeProtocol.NoLostWakeUp: polling and futures behind the wakers are not modelled.
- Several `Slot`s per node, `rebind`, and the context-less borrow `try_borrow_contextless` and `current_ref` are not modelled.
- Async scans, streams, futures, the action context channel, subscriptions and one-shot broadcasts.
- State references, bump allocation, macros, formatting, serialization and comparison.
- Termination of `flush`, panics and unwinding, thread-local storage, and reference counts beyond a liveness flag.

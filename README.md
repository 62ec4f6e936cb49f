# kmposable navigation core in Dafny

This project models the headless navigation core of kmposable, a Kotlin Multiplatform library
in which screens are *nodes* kept on a stack, and proves properties of that model:

- **Stack and snapshots.** The immutable snapshot (`KmposableNavState`) is modelled together
  with the stack navigator that mutates a private list and republishes a snapshot after each
  change (`KmposableStackNavigator`).
- **Diffs.** The structural diff between two snapshots (`diffNavState`).
- **The runtime.** Every `NavFlow` call that changes the stack, except `mutateNavigator` (see
  Findings), refuses to run before `start()`. `start()` attaches the node on top. Once
  started, the flow attaches (`attachNode`) every node a call pushes or brings in and detaches
  (`detachNode`) every node a call removes, launching or cancelling one output collector per
  node; `dispose()` detaches every node on the stack. As long as no node is on the stack
  twice, the nodes with a collector while the flow is started are exactly the nodes on the
  stack, so every attach is paired with one detach.
- **Results.** A node can be pushed and its result awaited, on a navigator
  (`pushForResult`) and on a flow (`pushAndAwaitResult`).
- **Scripts.** The script scope queues the runtime's outputs and hands them out in order. The
  helpers written on top of it: mapped awaits, case builders, push/run/pop around a block,
  and typed access to the top node.
- **The flow-script DSL.** Steps, `finish()`, subflows, the cancel handler, `call`, `branch`.
- **Overlays.** How the overlay host splits a snapshot into a base and overlays, and when an
  auto-closing overlay pops itself.
- **Rendering.** The renderer registry's lookup.

Identity and equality are kept apart, as in the source:

- An `Entry` carries its allocation `uid`, so Dafny `==` on entries is Kotlin `===`.
  `Entry.Equals` is the data-class `equals` that the navigator's `indexOf` uses.
- Nodes carry a `ref`, and their type tests (`is T`) are `IsInstance` over a class tag and its
  supertypes.

Suspension, coroutines and flows are not run. Whatever the timing decides becomes an input of
the modelled operation:

- the first result of a node;
- which of two racing waiters wins;
- the navigator calls other actors make meanwhile;
- whether the flow was disposed during a block;
- the outcome of a caller-supplied block.

The runtime's lifecycle calls are recorded as a log of hooks (`Attach`, `Observe`,
`StopObserve`, `Detach`). For a started flow, every operation states its exact effect on that
log.

The helpers that push a node, wait and pop in `finally` are specified by `HelperState`, the
state a started flow ends in given its old state and the inputs above. The `Helper…` lemmas
say what that state is in the cases that matter: the stack restored, the entry kept, another
caller's entry popped instead, the flow disposed.

`mutateNavigator` as written has no started check, and calling it before `start()` breaks the
pairing of attaches and detaches (see Findings). The model proves the pairing for the
corrected call, which refuses to run before `start()`, and uses that call throughout,
including in the script scope's `showNode`, `showRoot`, `pushNode` and `replaceTop` (see Left
out).

The script scope's channel is an unbounded queue. When an await finds no matching output, the
model returns the error the await would end with: on an open channel the script stays
suspended until its job is cancelled (`JobCancelled`), and on a closed channel it raises the
channel's `CancellationException`.

Modules, one file each: `Common`, `NavState`, `Navigator`, `NavDiff`, `NavFlow`,
`NavFlowHelpers`, `NavigatorExtensions`, `NavFlowScript`, `NavFlowScriptHelpers`,
`FlowScriptDsl`, `ResultNode`, `Overlay`, `NodeRenderer`.

## Model

| member | source | states |
|---|---|---|
| NavState.ResolveNodeTag | library-core/src/commonMain/kotlin/dev/goquick/kmposable/core/nav/KmposableNavState.kt:48-49 | the tag is the stateful node's id when it has one, otherwise the class's simple name |
| NavState.DefaultStackEntry | library-core/src/commonMain/kotlin/dev/goquick/kmposable/core/nav/KmposableNavState.kt:15-18 | a new entry wraps exactly the given node, and its default tag is the resolved node tag |
| NavState.MakeNavState | library-core/src/commonMain/kotlin/dev/goquick/kmposable/core/nav/KmposableNavState.kt:29-31 | construction succeeds exactly on a non-empty list and keeps it; otherwise it raises IllegalArgumentException "NavState.stack must not be empty" |
| NavState.ConstructedStateIsNonEmpty | library-core/src/commonMain/kotlin/dev/goquick/kmposable/core/nav/KmposableNavState.kt:29-45 | every snapshot that construction accepts has size at least 1; root is the first entry and top the last, with their nodes |
| NavState.SingleEntryRootIsTop | library-core/src/commonMain/kotlin/dev/goquick/kmposable/core/nav/KmposableNavState.kt:33-43 | with one entry, root and top are the same entry and node |
| Navigator.IndexOf | library-core/src/commonMain/kotlin/dev/goquick/kmposable/core/nav/KmposableNavigator.kt:85 | the first index whose entry `equals` the target, or -1 when no entry does |
| Navigator.StackNavigator.constructor | library-core/src/commonMain/kotlin/dev/goquick/kmposable/core/nav/KmposableNavigator.kt:34-40 | the stack holds only the initial entry and the published snapshot matches it |
| Navigator.StackNavigator.NotifyState | library-core/src/commonMain/kotlin/dev/goquick/kmposable/core/nav/KmposableNavigator.kt:42-44 | the published snapshot becomes the current list |
| Navigator.StackNavigator.Push | library-core/src/commonMain/kotlin/dev/goquick/kmposable/core/nav/KmposableNavigator.kt:46-49 | the entry is appended on top and the snapshot republished |
| Navigator.StackNavigator.Pop | library-core/src/commonMain/kotlin/dev/goquick/kmposable/core/nav/KmposableNavigator.kt:51-56 | at the root: returns null and changes nothing; otherwise returns the old top and removes exactly it |
| Navigator.StackNavigator.PopAll | library-core/src/commonMain/kotlin/dev/goquick/kmposable/core/nav/KmposableNavigator.kt:58-66 | only the root remains; the removed entries are those above it, top first (loop proved with invariants) |
| Navigator.StackNavigator.ReplaceAll | library-core/src/commonMain/kotlin/dev/goquick/kmposable/core/nav/KmposableNavigator.kt:68-74 | the stack becomes exactly the new entry; every old entry is returned, top first |
| Navigator.StackNavigator.ReplaceTop | library-core/src/commonMain/kotlin/dev/goquick/kmposable/core/nav/KmposableNavigator.kt:76-82 | the top slot is swapped for the new entry and the old top returned |
| Navigator.StackNavigator.PopTo | library-core/src/commonMain/kotlin/dev/goquick/kmposable/core/nav/KmposableNavigator.kt:84-98 | pops down to the first entry equal to the target (and that entry when inclusive), returning removed entries top first. Absent target or nothing above it: no-op. Emptying the stack raises "Navigator stack cannot be empty" with the list already emptied and no snapshot published |
| Navigator.StackNavigator.Perform | library-core/src/commonMain/kotlin/dev/goquick/kmposable/core/nav/KmposableNavigator.kt:46-98 | any navigator call changes the list and returns the removed entries exactly as the reference semantics `Apply` says |
| Navigator.Apply | library-core/src/commonMain/kotlin/dev/goquick/kmposable/core/nav/KmposableNavigator.kt:46-98 | the reference semantics of the navigator calls: only an inclusive `popTo` whose first equal entry is the root fails, with "Navigator stack cannot be empty", and no successful call empties the stack |
| Navigator.ApplyAllNeverEmpties | library-core/src/commonMain/kotlin/dev/goquick/kmposable/core/nav/KmposableNavigator.kt:46-98 | no run of successful navigator calls leaves the stack empty |
| Navigator.LastGood | library-core/src/commonMain/kotlin/dev/goquick/kmposable/core/nav/KmposableNavigator.kt:46-98 | the snapshot a run of calls last publishes: the stack after the calls that succeed before the first failing one (a failing popTo publishes nothing); never empty, and the run's result when no call fails |
| Navigator.ApplyKeepsRoot | library-core/src/commonMain/kotlin/dev/goquick/kmposable/core/nav/KmposableNavigator.kt:46-98 | a successful call leaves at least one entry; only replaceAll, and replaceTop on a one-entry stack, change the root |
| Navigator.PushKeepsEarlierEntries | library-core/src/commonMain/kotlin/dev/goquick/kmposable/core/nav/KmposableNavigator.kt:46-49 | push grows the stack by one, puts the entry on top and keeps every earlier entry |
| Navigator.PopRemovesExactlyTop | library-core/src/commonMain/kotlin/dev/goquick/kmposable/core/nav/KmposableNavigator.kt:51-56 | pop at the root is a no-op; above it the size drops by one, and stack plus removed entry is the old stack |
| Navigator.ReplaceTopChangesOnlyLastSlot | library-core/src/commonMain/kotlin/dev/goquick/kmposable/core/nav/KmposableNavigator.kt:76-82 | replaceTop keeps the size, sets the last slot, keeps the others and removes the old top |
| Navigator.ReplaceAllThenPopAll | library-core/src/commonMain/kotlin/dev/goquick/kmposable/core/nav/KmposableNavigator.kt:58-74 | after replaceAll(e) the stack is [e], and popAll on it removes nothing |
| Navigator.PopToAbsentIsNoOp | library-core/src/commonMain/kotlin/dev/goquick/kmposable/core/nav/KmposableNavigator.kt:84-86 | popTo with no entry equal to the target changes nothing and removes nothing |
| Navigator.PopToExclusiveLeavesTargetOnTop | library-core/src/commonMain/kotlin/dev/goquick/kmposable/core/nav/KmposableNavigator.kt:84-98 | exclusive popTo leaves the first equal entry on top; stack plus reversed removed entries is the old stack |
| Navigator.PopToInclusiveLeavesPredecessor | library-core/src/commonMain/kotlin/dev/goquick/kmposable/core/nav/KmposableNavigator.kt:84-98 | inclusive popTo above the root removes the target too, leaving no entry equal to it |
| Navigator.PopToRootInclusiveFails | library-core/src/commonMain/kotlin/dev/goquick/kmposable/core/nav/KmposableNavigator.kt:87-95 | inclusive popTo of the root raises IllegalStateException "Navigator stack cannot be empty" |
| Navigator.PopToScenario | library-core/src/commonTest/kotlin/dev/goquick/kmposable/core/nav/StackNavigatorTest.kt:85-102 | root, push list, push detail. Exclusive popTo(list) removes [detail] leaving [root, list]; then inclusive popTo(list) removes [list] leaving [root] |
| NavDiff.CommonPrefixLength | library-core/src/commonMain/kotlin/dev/goquick/kmposable/core/nav/NavDiff.kt:40-44 | the longest prefix shared by identity: both prefixes are equal and the next entries differ |
| NavDiff.Diff | library-core/src/commonMain/kotlin/dev/goquick/kmposable/core/nav/NavDiff.kt:29-54 | the diff carries its inputs; without a previous snapshot nothing is popped and all is pushed; otherwise the pushed entries are the top of the new stack and both stacks keep equally many entries below what changed |
| NavDiff.DiffNavState | library-core/src/commonMain/kotlin/dev/goquick/kmposable/core/nav/NavDiff.kt:25-55 | the loop computes the diff `Diff`: popped = previous remainder reversed, pushed = current remainder |
| NavDiff.DiffRoundTrip | library-core/src/commonMain/kotlin/dev/goquick/kmposable/core/nav/NavDiff.kt:25-55 | round trip: previous = prefix + reverse(popped) and current = prefix + pushed, with the prefix maximal |
| NavDiff.DiffWithoutPrevious | library-core/src/commonMain/kotlin/dev/goquick/kmposable/core/nav/NavDiff.kt:29-36 | with no previous snapshot nothing is popped and the whole stack is pushed |
| NavDiff.DiffNoOpIffSameStack | library-core/src/commonTest/kotlin/dev/goquick/kmposable/core/nav/NavDiffTest.kt:76-86 | the diff is a no-op exactly when both stacks hold the same entries, both directions |
| NavDiff.DiffReplaceAll | library-core/src/commonTest/kotlin/dev/goquick/kmposable/core/nav/NavDiffTest.kt:64-74 | replacing [a, b] by [c] pops [b, a] and pushes [c] |
| NavFlow.Without | library-core/src/commonMain/kotlin/dev/goquick/kmposable/runtime/NavFlow.kt:247-254 | `filterNot { it in ys }`: exactly the members of xs not in ys remain |
| NavFlow.FirstNodeIndex | library-core/src/commonMain/kotlin/dev/goquick/kmposable/runtime/NavFlow.kt:221-222 | the first entry holding the node, or -1 when none does |
| NavFlow.NoSecondCollector | library-core/src/commonMain/kotlin/dev/goquick/kmposable/runtime/NavFlow.kt:202-213 | in any bracketed hook log, two collectors launched for one node have a cancellation between them: never two at once |
| NavFlow.DetachAllDetachesEach | library-core/src/commonMain/kotlin/dev/goquick/kmposable/runtime/NavFlow.kt:196-200 | detaching a list calls detachNode once per node in list order and attachNode never |
| NavFlow.AttachAllAttachesEach | library-core/src/commonMain/kotlin/dev/goquick/kmposable/runtime/NavFlow.kt:189-193 | attaching a list calls attachNode once per node in list order and detachNode never |
| NavFlow.MutationSparesSurvivors | library-core/src/commonMain/kotlin/dev/goquick/kmposable/runtime/NavFlow.kt:247-254 | nodes on the stack before and after get no hook at all; departed nodes are detached and not attached; arrived nodes are attached and not detached |
| NavFlow.FoundEntryIsFirstEqual | library-core/src/commonMain/kotlin/dev/goquick/kmposable/runtime/NavFlow.kt:146-151 | the entry `findEntryForNode` picks is the one the navigator's `indexOf` finds, so popTo acts on it |
| NavFlow.NavFlow.constructor | library-core/src/commonMain/kotlin/dev/goquick/kmposable/runtime/NavFlow.kt:42-52 | the stack is one new entry for the root node; not started, nothing attached, no collectors; `Paired` holds |
| NavFlow.NavFlow.CurrentTopNode | library-core/src/commonMain/kotlin/dev/goquick/kmposable/runtime/NavFlow.kt:78 | the node of the snapshot's top entry |
| NavFlow.NavFlow.CreateEntry | library-core/src/commonMain/kotlin/dev/goquick/kmposable/runtime/NavFlow.kt:238-241 | a freshly allocated default entry for the node |
| NavFlow.NavFlow.ObserveNodeOutputs | library-core/src/commonMain/kotlin/dev/goquick/kmposable/runtime/NavFlow.kt:202-213 | launches a collector only for a node without one; otherwise nothing changes |
| NavFlow.NavFlow.StopObservingNode | library-core/src/commonMain/kotlin/dev/goquick/kmposable/runtime/NavFlow.kt:229-231 | cancels and removes the node's collector when it has one; otherwise nothing changes |
| NavFlow.NavFlow.AttachNode | library-core/src/commonMain/kotlin/dev/goquick/kmposable/runtime/NavFlow.kt:189-193 | attachNode: onAttach (for a lifecycle-aware node), then a collector unless one runs; afterwards the node's collector runs |
| NavFlow.NavFlow.DetachNode | library-core/src/commonMain/kotlin/dev/goquick/kmposable/runtime/NavFlow.kt:196-200 | detachNode: the collector is cancelled, then onDetach (for a lifecycle-aware node); afterwards the node has no collector |
| NavFlow.NavFlow.AttachAll | library-core/src/commonMain/kotlin/dev/goquick/kmposable/runtime/NavFlow.kt:247-254 | `forEach { attachNode }` (loop with invariants): the hooks of each node in order; all of them end up observed |
| NavFlow.NavFlow.DetachAll | library-core/src/commonMain/kotlin/dev/goquick/kmposable/runtime/NavFlow.kt:179-184 | `forEach { detachNode }` (loop with invariants): the hooks of each node in order; none of them stays observed |
| NavFlow.NavFlow.Start | library-core/src/commonMain/kotlin/dev/goquick/kmposable/runtime/NavFlow.kt:70-75 | idempotent; the first call marks the flow started and attaches the top node; keeps `Paired`: while started, the nodes with a collector are exactly the stack's nodes |
| NavFlow.NavFlow.Push | library-core/src/commonMain/kotlin/dev/goquick/kmposable/runtime/NavFlow.kt:81-87 | not started: raises "NavFlow must be started via start() before use." and changes nothing; otherwise a new entry on top and the node attached; keeps `Paired`: while started, the nodes with a collector are exactly the stack's nodes |
| NavFlow.NavFlow.PushIfStarted | library-core/src/commonMain/kotlin/dev/goquick/kmposable/runtime/NavFlow.kt:92-96 | returns whether the flow was started; pushes exactly when it was; keeps `Paired`: while started, the nodes with a collector are exactly the stack's nodes |
| NavFlow.NavFlow.Pop | library-core/src/commonMain/kotlin/dev/goquick/kmposable/runtime/NavFlow.kt:103-109 | not started: raises; at the root: false, nothing changes; otherwise true, the top removed and its node detached; keeps `Paired` when the stack's nodes are distinct |
| NavFlow.NavFlow.PopIfStarted | library-core/src/commonMain/kotlin/dev/goquick/kmposable/runtime/NavFlow.kt:114-117 | pops exactly when started and above the root, with the same effect as pop; keeps `Paired` when the stack's nodes are distinct |
| NavFlow.NavFlow.ReplaceAll | library-core/src/commonMain/kotlin/dev/goquick/kmposable/runtime/NavFlow.kt:120-127 | the stack becomes one new entry; every old node is detached top first, then the new node attached; keeps `Paired`: while started, the nodes with a collector are exactly the stack's nodes |
| NavFlow.NavFlow.ReplaceTop | library-core/src/commonMain/kotlin/dev/goquick/kmposable/runtime/NavFlow.kt:130-136 | the top slot gets a new entry; the old top node is detached, then the new node attached; keeps `Paired` when the stack's nodes are distinct |
| NavFlow.NavFlow.PopAll | library-core/src/commonMain/kotlin/dev/goquick/kmposable/runtime/NavFlow.kt:139-143 | only the root remains; the removed nodes are detached top first; keeps `Paired` when the stack's nodes are distinct |
| NavFlow.NavFlow.PopTo | library-core/src/commonMain/kotlin/dev/goquick/kmposable/runtime/NavFlow.kt:146-151 | a node not on the stack: no-op. Otherwise the navigator's popTo on its first entry, with every removed node detached; the navigator's failure propagates with nothing detached and the published snapshot unchanged; keeps `Paired` when the stack's nodes are distinct |
| NavFlow.NavFlow.CanPop | library-core/src/commonMain/kotlin/dev/goquick/kmposable/runtime/NavFlow.kt:154-157 | raises when not started; otherwise whether there is more than one entry |
| NavFlow.NavFlow.PopToRoot | library-core/src/commonMain/kotlin/dev/goquick/kmposable/runtime/NavFlow.kt:160-164 | exclusive popTo of the root node: the same effect as popAll; keeps `Paired` when the stack's nodes are distinct |
| NavFlow.NavFlow.SendEvent | library-core/src/commonMain/kotlin/dev/goquick/kmposable/runtime/NavFlow.kt:170-173 | raises when not started; otherwise the event goes to the current top node |
| NavFlow.NavFlow.Dispose | library-core/src/commonMain/kotlin/dev/goquick/kmposable/runtime/NavFlow.kt:179-184 | a started flow detaches every node root first, pops to the root and stops; a flow never started is left alone; keeps `Paired`: while started, the nodes with a collector are exactly the stack's nodes |
| NavFlow.NavFlow.SyncLifecycle | library-core/src/commonMain/kotlin/dev/goquick/kmposable/runtime/NavFlow.kt:247-254 | departed nodes detached in old order, then arrived nodes attached in new order |
| NavFlow.NavFlow.MutateNavigator | library-core/src/commonMain/kotlin/dev/goquick/kmposable/runtime/NavFlow.kt:247-254 | not started: raises NotStarted and changes nothing (the corrected definition, see Findings). Otherwise the stack ends as `ApplyAll` says, with lifecycle synchronised, and a successful run keeps `Paired`. A failing call propagates, leaving the navigator emptied, its published snapshot the one `LastGood` gives, and nothing attached or detached |
| NavFlow.NavFlow.MutateNavigatorUnguarded | library-core/src/commonMain/kotlin/dev/goquick/kmposable/runtime/NavFlow.kt:247-254 | `mutateNavigator` as written, with no started check: the stack ends as `ApplyAll` says, with lifecycle synchronised, even before `start()`; on a started flow a successful run keeps `Paired`. A failing call propagates, leaving the navigator emptied, its published snapshot the one `LastGood` gives, and nothing attached or detached |
| NavFlow.PreStartMutationUnpaired | library-core/src/commonMain/kotlin/dev/goquick/kmposable/runtime/NavFlow.kt:70-75 | constructor, `mutateNavigator` pushing a node before `start()`, then start and dispose: the root is detached but never attached, and the pushed node is attached twice and detached once |
| NavFlow.PreStartMutationRefused | library-core/src/commonMain/kotlin/dev/goquick/kmposable/runtime/NavFlow.kt:70-75 | the same calls with the started check: the early mutation raises NotStarted, and the root is the one node attached and the one node detached |
| NavFlow.OthersNavigate | library-core/src/commonMain/kotlin/dev/goquick/kmposable/runtime/NavFlow.kt:247-254 | navigation by other callers while a helper waits: the stack becomes `AfterOthers` of the old one, with the hooks and collectors of `mutateNavigator` |
| NavFlow.OthersPushAbove | library-core/src/commonMain/kotlin/dev/goquick/kmposable/runtime/NavFlowHelpers.kt:24-31 | another caller pushing an entry while the helper waits puts that entry above the helper's node, so the helper's pop removes that entry and not the node |
| NavFlow.AfterOthers | library-core/src/commonMain/kotlin/dev/goquick/kmposable/runtime/NavFlowHelpers.kt:24-31 | other callers' navigation leaves at least one entry, leaves the stack alone when there is none, and otherwise gives the stack their run of navigator calls produces |
| NavFlow.HelperRestores | library-core/src/commonMain/kotlin/dev/goquick/kmposable/runtime/NavFlowHelpers.kt:24-31 | a helper that pops, with no other navigation and no dispose, leaves the stack as it found it, having attached its node and then detached it |
| NavFlow.HelperKeepsEntry | library-core/src/commonMain/kotlin/dev/goquick/kmposable/runtime/NavFlowHelpers.kt:14-15 | a helper that does not pop (autoPop false), with no other navigation and no dispose, leaves its entry on top, attached |
| NavFlow.HelperPopsOthersEntry | library-core/src/commonMain/kotlin/dev/goquick/kmposable/runtime/NavFlowScriptHelpers.kt:123-134 | when another caller pushes an entry while the helper waits, the helper's pop removes that entry and the helper's own entry stays on the stack |
| NavFlow.HelperDisposed | library-core/src/commonMain/kotlin/dev/goquick/kmposable/runtime/NavFlowHelpers.kt:28 | after a dispose while the helper waits, with no other navigation, the flow is stopped and holds only the root, whatever the pop flag says |
| NavFlow.MutationNone | library-core/src/commonMain/kotlin/dev/goquick/kmposable/runtime/NavFlow.kt:247-254 | a mutation that keeps the stack's nodes attaches and detaches nothing and keeps the collectors |
| NavFlowHelpers.AwaitedResult | library-core/src/commonMain/kotlin/dev/goquick/kmposable/runtime/NavFlowHelpers.kt:18-33 | `firstOrNull() ?: Canceled`: the first emitted result as is (Ok, or the node's own Canceled), a flow ending empty as Canceled, an exception passed through; Ok only when a value was emitted |
| NavFlowHelpers.PushAndAwaitResult | library-core/src/commonMain/kotlin/dev/goquick/kmposable/runtime/NavFlowHelpers.kt:18-33 | not started: raises before pushing and changes nothing. Otherwise returns the awaited result whatever happens to the stack, and the flow ends as `HelperState` says for its push, other callers' navigation meanwhile (`external`), a dispose meanwhile, and a `finally` pop exactly when autoPop is set (see the Helper lemmas for what that state is) |
| NavFlowHelpers.AfterWait | library-core/src/commonMain/kotlin/dev/goquick/kmposable/runtime/NavFlowHelpers.kt:25-31 | the end of the wait, as `FinallyState` says: a dispose when one happened, then one pop when autoPop is set and the flow is still started, which removes the top entry and detaches its node, and nothing at the root |
| NavFlowHelpers.PushAndAwaitResultFrom | library-core/src/commonMain/kotlin/dev/goquick/kmposable/runtime/NavFlowHelpers.kt:41-50 | the made node is pushed and awaited as in `PushAndAwaitResult`: not started, it raises NotStarted and changes nothing; otherwise it returns the awaited result and leaves the flow as `HelperState` says. `onResult` receives the returned result exactly once, and never when the call raises |
| NavigatorExtensions.NonResultNodeRefused | library-core/src/commonMain/kotlin/dev/goquick/kmposable/core/nav/KmposableNavigatorExtensions.kt:24-29 | a node that is not a ResultNode raises IllegalArgumentException before anything is pushed |
| NavigatorExtensions.OutcomeIsTheWinner | library-core/src/commonMain/kotlin/dev/goquick/kmposable/core/nav/KmposableNavigatorExtensions.kt:35-46 | the result is the race winner's: the result the node's flow emitted (Ok or the node's own Canceled), Canceled on removal, or the result flow's failure; only a failing cleanup replaces a result |
| NavigatorExtensions.Cleanup | library-core/src/commonMain/kotlin/dev/goquick/kmposable/core/nav/KmposableNavigatorExtensions.kt:48-56 | a successful cleanup leaves a non-empty prefix of the stack, so it only takes entries off the top; a failing one raises "Navigator stack cannot be empty" |
| NavigatorExtensions.LoserDidNotDecide | library-core/src/commonMain/kotlin/dev/goquick/kmposable/core/nav/KmposableNavigatorExtensions.kt:35-61 | the cancelled waiter is the one that lost the race: the result waiter exactly when removal won and Canceled is returned, otherwise the removal waiter, with the result flow's result or failure returned |
| NavigatorExtensions.CleanupFailsOnlyAtRoot | library-core/src/commonMain/kotlin/dev/goquick/kmposable/core/nav/KmposableNavigatorExtensions.kt:48-56 | cleanup fails exactly when the entry is present, not on top, and the first entry equal to it is the root |
| NavigatorExtensions.CleanupRemovesEntry | library-core/src/commonMain/kotlin/dev/goquick/kmposable/core/nav/KmposableNavigatorExtensions.kt:48-56 | a successful cleanup leaves an entry that appeared at most once off the stack |
| NavigatorExtensions.EntryGoneOnReturn | library-core/src/commonMain/kotlin/dev/goquick/kmposable/core/nav/KmposableNavigatorExtensions.kt:17-62 | once the race is decided, an entry present at most once, not the only entry, and not left where cleanup's popTo fails (an equal entry as the root below it) is off the stack on return |
| NavigatorExtensions.RemoveEntry | library-core/src/commonMain/kotlin/dev/goquick/kmposable/core/nav/KmposableNavigatorExtensions.kt:48-56 | the cleanup after the race changes the navigator exactly as `Cleanup` says: pop when the entry is on top, inclusive popTo when deeper, nothing when gone; popTo's failure propagates, with the published snapshot unchanged |
| NavigatorExtensions.ResultReturnsToRoot | library-core/src/commonTest/kotlin/dev/goquick/kmposable/core/nav/PushForResultTest.kt:56-62 | a result on a one-entry stack is returned as emitted (Ok or Canceled) and leaves the root alone |
| NavigatorExtensions.ExternalPopCancels | library-core/src/commonTest/kotlin/dev/goquick/kmposable/core/nav/PushForResultTest.kt:80-84 | an external pop before any result gives Canceled and leaves the root alone |
| NavigatorExtensions.PushForResult | library-core/src/commonMain/kotlin/dev/goquick/kmposable/core/nav/KmposableNavigatorExtensions.kt:17-62 | the navigator and the result are exactly those of `PushForResultSpec`; after a failing cleanup the published snapshot is the stack the race ended on; the losing waiter, when still active, is cancelled |
| NavFlowScript.FirstSatisfying | library-core/src/commonMain/kotlin/dev/goquick/kmposable/runtime/NavFlowScript.kt:135-147 | the first queued output satisfying the predicate, or -1 when none does |
| NavFlowScript.LaterOutputsDoNotOvertake | library-core/src/commonMain/kotlin/dev/goquick/kmposable/runtime/NavFlowScript.kt:124-147 | outputs queued later never change the match already waiting in the queue |
| NavFlowScript.ScriptScope.constructor | library-core/src/commonMain/kotlin/dev/goquick/kmposable/runtime/NavFlowScript.kt:124-127 | empty open channel, collector active, no traces |
| NavFlowScript.ScriptScope.Deliver | library-core/src/commonMain/kotlin/dev/goquick/kmposable/runtime/NavFlowScript.kt:124-127 | while the collector and channel are live, an emitted output is appended; otherwise dropped |
| NavFlowScript.ScriptScope.Trace | library-core/src/commonMain/kotlin/dev/goquick/kmposable/runtime/NavFlowScript.kt:131-133 | the message reaches `onTrace` exactly when one was given |
| NavFlowScript.ScriptScope.AwaitOutput | library-core/src/commonMain/kotlin/dev/goquick/kmposable/runtime/NavFlowScript.kt:135-147 | returns the first satisfying output, and every output before it is consumed; with none, the queue drains and the await ends as `Stalled` |
| NavFlowScript.ScriptScope.AwaitOutputOfType | library-core/src/commonMain/kotlin/dev/goquick/kmposable/runtime/NavFlowScript.kt:72-76 | the first queued output that is a T |
| NavFlowScript.ScriptScope.Dispose | library-core/src/commonMain/kotlin/dev/goquick/kmposable/runtime/NavFlowScript.kt:149-152 | collector and channel cancelled, queued outputs discarded |
| NavFlowScript.ScriptScope.ShowNode | library-core/src/commonMain/kotlin/dev/goquick/kmposable/runtime/NavFlowScript.kt:35-37 | arbitrary navigator calls through mutateNavigator, with its full effect, including on a failing call (emptied navigator, `LastGood`'s snapshot, no hooks); before `start()` it follows the corrected call, raising NotStarted and changing nothing (see Left out) |
| NavFlowScript.ScriptScope.ShowRoot | library-core/src/commonMain/kotlin/dev/goquick/kmposable/runtime/NavFlowScript.kt:40-43 | the stack becomes one new entry for the node, with lifecycle synchronised; before `start()` it follows the corrected call, raising NotStarted and changing nothing (see Left out) |
| NavFlowScript.ScriptScope.PushNode | library-core/src/commonMain/kotlin/dev/goquick/kmposable/runtime/NavFlowScript.kt:46-49 | one new entry on top; a node already on the stack is not attached again; before `start()` it follows the corrected call, raising NotStarted and changing nothing (see Left out) |
| NavFlowScript.ScriptScope.ReplaceTop | library-core/src/commonMain/kotlin/dev/goquick/kmposable/runtime/NavFlowScript.kt:52-55 | the top slot gets a new entry, with lifecycle synchronised; before `start()` it follows the corrected call, raising NotStarted and changing nothing (see Left out) |
| NavFlowScript.LaunchNavFlowScript | library-core/src/commonMain/kotlin/dev/goquick/kmposable/runtime/NavFlowScript.kt:81-94 | a new scope runs the script and is disposed afterwards whether the script returned or raised; the outcome passes through |
| NavFlowScriptHelpers.RunCatchingNodeCall | library-core/src/commonMain/kotlin/dev/goquick/kmposable/runtime/NavFlowScriptHelpers.kt:10-20 | onLoading first, then exactly one of onSuccess(value) and onError(exception), a cancellation included |
| NavFlowScriptHelpers.FirstMapped | library-core/src/commonMain/kotlin/dev/goquick/kmposable/runtime/NavFlowScriptHelpers.kt:25-33 | the first queued output the mapper maps to a value, or -1 |
| NavFlowScriptHelpers.AwaitMappedOutput | library-core/src/commonMain/kotlin/dev/goquick/kmposable/runtime/NavFlowScriptHelpers.kt:25-33 | the loop returns the mapped value of the first mappable output, consuming it and everything before; with none, the await ends as `Stalled` |
| NavFlowScriptHelpers.FirstHandled | library-core/src/commonMain/kotlin/dev/goquick/kmposable/runtime/NavFlowScriptHelpers.kt:101-107 | the first matcher, in declaration order, that maps the output, or -1 |
| NavFlowScriptHelpers.MapCase | library-core/src/commonMain/kotlin/dev/goquick/kmposable/runtime/NavFlowScriptHelpers.kt:101-107 | the first matcher's value; when none maps, the fallback's; with no fallback, none |
| NavFlowScriptHelpers.OutputCaseBuilder.constructor | library-core/src/commonMain/kotlin/dev/goquick/kmposable/runtime/NavFlowScriptHelpers.kt:82-84 | no matchers, no fallback |
| NavFlowScriptHelpers.OutputCaseBuilder.On | library-core/src/commonMain/kotlin/dev/goquick/kmposable/runtime/NavFlowScriptHelpers.kt:87-89 | appends a type matcher after the existing ones |
| NavFlowScriptHelpers.OutputCaseBuilder.Match | library-core/src/commonMain/kotlin/dev/goquick/kmposable/runtime/NavFlowScriptHelpers.kt:92-94 | appends a predicate matcher after the existing ones |
| NavFlowScriptHelpers.OutputCaseBuilder.Otherwise | library-core/src/commonMain/kotlin/dev/goquick/kmposable/runtime/NavFlowScriptHelpers.kt:97-99 | the last fallback wins |
| NavFlowScriptHelpers.AwaitOutputCase | library-core/src/commonMain/kotlin/dev/goquick/kmposable/runtime/NavFlowScriptHelpers.kt:113-118 | the case value of the first output some case maps, skipping and consuming the others |
| NavFlowScriptHelpers.WithNode | library-core/src/commonMain/kotlin/dev/goquick/kmposable/runtime/NavFlowScriptHelpers.kt:38-64 | not started: raises and changes nothing. Otherwise the block's outcome is returned, except that after a dispose the `finally` pop raises NotStarted and replaces it; the flow ends as `HelperState` says for the push, other callers' navigation during the block (`external`), the dispose, and one unguarded pop (the factory overload runs the same steps on the node the factory made) |
| NavFlowScriptHelpers.PushForResult | library-core/src/commonMain/kotlin/dev/goquick/kmposable/runtime/NavFlowScriptHelpers.kt:70-134 | not started: raises, consuming nothing. Otherwise the value is the first output the mapper maps, the outputs before it consumed; after a dispose the `finally` pop raises NotStarted and replaces the value. The flow ends as `HelperState` says for the push, other callers' navigation meanwhile, the dispose and one unguarded pop (`pushAndAwait` runs the same steps through withNode) |
| NavFlowScriptHelpers.FinallyPop | library-core/src/commonMain/kotlin/dev/goquick/kmposable/runtime/NavFlowScriptHelpers.kt:45-47 | the unguarded `pop()` of a `finally`, as `FinallyState` says: removes the top entry and detaches its node, nothing at the root; after a dispose it raises NotStarted, which replaces the block's outcome |
| NavFlowScriptHelpers.WithTopNode | library-core/src/commonMain/kotlin/dev/goquick/kmposable/runtime/NavFlowScriptHelpers.kt:139-158 | `withTopNode` / `updateTopNode` (and the DSL step context's `updateNode` / `withNode`): the block runs on the top node exactly when it is a T; otherwise raises "Expected top node of type T, but was C" without running it |
| FlowScriptDsl.RunScript | library-core/src/commonMain/kotlin/dev/goquick/kmposable/runtime/FlowScriptDsl.kt:210-227 | the executor's run as a function of the script, the flag and `cancelInvoked`: the exception that escapes is the one the steps raised, whether or not the handler runs |
| FlowScriptDsl.FinishedScriptIsInert | library-core/src/commonMain/kotlin/dev/goquick/kmposable/runtime/FlowScriptDsl.kt:210-217 | once the flag is set a script starts no step, raises nothing and runs no handler, so a subflow after `finish()` does nothing |
| FlowScriptDsl.BodyKeepsFinished | library-core/src/commonMain/kotlin/dev/goquick/kmposable/runtime/FlowScriptDsl.kt:59-66 | once set, the shared finish flag stays set to the end of the body, through subflows |
| FlowScriptDsl.FinishCallSetsFlag | library-core/src/commonMain/kotlin/dev/goquick/kmposable/runtime/FlowScriptDsl.kt:77-79 | a body that calls `finish()` and completes leaves the flag set |
| FlowScriptDsl.FinishEndsScript | library-core/src/commonMain/kotlin/dev/goquick/kmposable/runtime/FlowScriptDsl.kt:212-217 | a step that calls `finish()` and completes is the last step to start; the run's events are its trace and its body's |
| FlowScriptDsl.PlainScriptRunsEveryStep | library-core/src/commonMain/kotlin/dev/goquick/kmposable/runtime/FlowScriptDsl.kt:212-217 | with no finish, raise or subflow, every step runs once in declaration order: the events equal the reference trace |
| FlowScriptDsl.CancelHandlerOnlyOnCancellation | library-core/src/commonMain/kotlin/dev/goquick/kmposable/runtime/FlowScriptDsl.kt:218-226 | the escaping exception is the steps' own whatever the handler does. The handler runs exactly on a cancellation, on an executor that has not run it, when declared |
| FlowScriptDsl.FinishFlag.constructor | library-core/src/commonMain/kotlin/dev/goquick/kmposable/runtime/FlowScriptDsl.kt:59-61 | a new flag is not set |
| FlowScriptDsl.FinishFlag.MarkFinished | library-core/src/commonMain/kotlin/dev/goquick/kmposable/runtime/FlowScriptDsl.kt:63-65 | the flag is set |
| FlowScriptDsl.FlowScriptExecutor.constructor | library-core/src/commonMain/kotlin/dev/goquick/kmposable/runtime/FlowScriptDsl.kt:204-208 | an executor holds its script and flag and has not run its cancel handler |
| FlowScriptDsl.FlowScriptExecutor.Run | library-core/src/commonMain/kotlin/dev/goquick/kmposable/runtime/FlowScriptDsl.kt:210-227 | the step loop plus the handler agree with `RunScript`: events, escaping exception and flag. `cancelInvoked` becomes set on the first cancellation |
| FlowScriptDsl.FlowScriptExecutor.RunStep | library-core/src/commonMain/kotlin/dev/goquick/kmposable/runtime/FlowScriptDsl.kt:214-216 | one loop pass, the trace then the step's block, agrees with `RunSteps` for that step |
| FlowScriptDsl.FlowScriptExecutor.RunActions | library-core/src/commonMain/kotlin/dev/goquick/kmposable/runtime/FlowScriptDsl.kt:216 | a block run action by action agrees with `RunBody` |
| FlowScriptDsl.FlowScriptExecutor.RunAction | library-core/src/commonMain/kotlin/dev/goquick/kmposable/runtime/FlowScriptDsl.kt:139-142 | one action agrees with `RunBody`; a subflow runs on a new executor sharing the finish flag |
| FlowScriptDsl.FlowScriptBuilder.constructor | library-core/src/commonMain/kotlin/dev/goquick/kmposable/runtime/FlowScriptDsl.kt:26-28 | no steps, no cancel handler |
| FlowScriptDsl.FlowScriptBuilder.Step | library-core/src/commonMain/kotlin/dev/goquick/kmposable/runtime/FlowScriptDsl.kt:30-32 | appends the step after the existing ones |
| FlowScriptDsl.FlowScriptBuilder.Cancel | library-core/src/commonMain/kotlin/dev/goquick/kmposable/runtime/FlowScriptDsl.kt:34-39 | the last cancel handler wins |
| FlowScriptDsl.FlowScriptBuilder.Build | library-core/src/commonMain/kotlin/dev/goquick/kmposable/runtime/FlowScriptDsl.kt:41 | a snapshot of the steps and the handler |
| FlowScriptDsl.RunFlow | library-core/src/commonMain/kotlin/dev/goquick/kmposable/runtime/FlowScriptDsl.kt:14-23 | the built script runs on a new executor with a new flag, as `RunScript` from an unset flag says; the scope is disposed afterwards |
| FlowScriptDsl.Call | library-core/src/commonMain/kotlin/dev/goquick/kmposable/runtime/FlowScriptDsl.kt:96-103 | a cancellation is rethrown, both directions; any other outcome is captured unchanged |
| FlowScriptDsl.CallbacksExclusive | library-core/src/commonMain/kotlin/dev/goquick/kmposable/runtime/FlowScriptDsl.kt:145-158 | onSuccess fires exactly for a non-null value, onFailure exactly for an exception, never both |
| FlowScriptDsl.Handle | library-core/src/commonMain/kotlin/dev/goquick/kmposable/runtime/FlowScriptDsl.kt:192-201 | the first accepting case in declaration order; with none, the fallback exactly when declared |
| FlowScriptDsl.RunBranch | library-core/src/commonMain/kotlin/dev/goquick/kmposable/runtime/FlowScriptDsl.kt:127-133 | the loop skips outputs no case handles and returns after the first handled one, consuming it and everything before |
| FlowScriptDsl.FallbackTakesFirstOutput | library-core/src/commonMain/kotlin/dev/goquick/kmposable/runtime/FlowScriptDsl.kt:196-199 | with an `otherwise`, a branch handles the very first output |
| ResultNode.DefaultShouldAutoClose | library-core/src/commonMain/kotlin/dev/goquick/kmposable/core/AutoCloseOverlay.kt:10-13 | the default closes on Ok and on Canceled alike |
| Overlay.LastNonOverlay | library-compose/src/commonMain/kotlin/dev/goquick/kmposable/compose/OverlayNavFlowHost.kt:126 | `indexOfLast { not overlay }`: the entry is not an overlay and all above it are; -1 when every entry is one |
| Overlay.ToOverlayLayers | library-compose/src/commonMain/kotlin/dev/goquick/kmposable/compose/OverlayNavFlowHost.kt:125-130 | the overlays are a strict suffix and the base sits just below it. With some non-overlay entry, the base is one and every overlay is one; with all overlays, the base is the top and there are none |
| Overlay.LayersAreStackSuffix | library-compose/src/commonMain/kotlin/dev/goquick/kmposable/compose/OverlayNavFlowHost.kt:125-130 | base followed by overlays is exactly the top of the stack from the base up |
| Overlay.OverlaysAreTopOverlayRun | library-compose/src/commonMain/kotlin/dev/goquick/kmposable/compose/OverlayNavFlowHost.kt:125-130 | the overlays are the longest run of overlay entries on top, and the base is not an overlay |
| Overlay.SingleOverlayIsBase | library-compose/src/commonTest/kotlin/dev/goquick/kmposable/compose/OverlayLayersTest.kt:30-38 | a single overlay entry is the base, with nothing above it |
| Overlay.RunAutoCloseOverlay | library-compose/src/commonMain/kotlin/dev/goquick/kmposable/compose/OverlayNavFlowHost.kt:106-118 | closes exactly when there is a result the node closes on, the flow is started, the node is still the top by identity and the stack can pop. It then pops once; otherwise nothing changes |
| NodeRenderer.FirstSupertypeEntry | library-compose/src/commonMain/kotlin/dev/goquick/kmposable/compose/NodeRenderer.kt:40-42 | the first registered key, in insertion order, that is not the node's class but a class it is an instance of |
| NodeRenderer.NodeRenderer.FindRenderer | library-compose/src/commonMain/kotlin/dev/goquick/kmposable/compose/NodeRenderer.kt:37-43 | the exact class's renderer, else the first registered supertype's, else none |
| NodeRenderer.NodeRenderer.Render | library-compose/src/commonMain/kotlin/dev/goquick/kmposable/compose/NodeRenderer.kt:30-35 | succeeds exactly when `canRender`; found renderer first, then the fallback; otherwise raises naming the node's class |
| NodeRenderer.NodeRenderer.CanRender | library-compose/src/commonMain/kotlin/dev/goquick/kmposable/compose/NodeRenderer.kt:28 | a fallback, or a renderer registered for the node's own class, makes the node renderable; without a fallback, a renderable node is an instance of some registered key |
| NodeRenderer.CanRenderIff | library-compose/src/commonMain/kotlin/dev/goquick/kmposable/compose/NodeRenderer.kt:28 | renderable exactly when a fallback is set or some registered key is a class the node is an instance of |
| NodeRenderer.EmptyRendersNothing | library-compose/src/commonTest/kotlin/dev/goquick/kmposable/compose/NodeRendererTest.kt:43-46 | an empty registry with no fallback cannot render and raises |
| NodeRenderer.PutIsMapUpdate | library-compose/src/commonMain/kotlin/dev/goquick/kmposable/compose/NodeRenderer.kt:52-54 | registering keeps keys unique; the class then maps to the new renderer and every other class to its old one |
| NodeRenderer.RegisterTwiceKeepsPlace | library-compose/src/commonMain/kotlin/dev/goquick/kmposable/compose/NodeRenderer.kt:52-54 | registering a class twice leaves one entry at the first registration's place, holding the latest renderer |
| NodeRenderer.NodeRendererBuilder.constructor | library-compose/src/commonMain/kotlin/dev/goquick/kmposable/compose/NodeRenderer.kt:46-50 | empty registry, no fallback |
| NodeRenderer.NodeRendererBuilder.Register | library-compose/src/commonMain/kotlin/dev/goquick/kmposable/compose/NodeRenderer.kt:52-54 | one insertion-ordered map put under the class, keeping keys unique |
| NodeRenderer.NodeRendererBuilder.Fallback | library-compose/src/commonMain/kotlin/dev/goquick/kmposable/compose/NodeRenderer.kt:56-58 | the last fallback wins |
| NodeRenderer.NodeRendererBuilder.Build | library-compose/src/commonMain/kotlin/dev/goquick/kmposable/compose/NodeRenderer.kt:60-65 | a valid renderer holding a copy of the registry and the fallback |

## Left out

- Coroutines, flows and jobs are not executed. This covers collector jobs, `emitRuntimeOutput`, the 16-slot shared `outputs` buffer, `select` timing, `launch` and `NavFlowLogger`. Their observable outcomes are inputs (see above), and the lifecycle log records when a collector is launched or cancelled.
- Compose UI (hosts, effects, view models) and the drawing a renderer does are not modelled. A renderer is an opaque id.
- `launchPushAndAwaitResult` only launches `pushAndAwaitResult` in a coroutine, so it is not modelled separately.
- Step bodies, cancel handlers and the blocks given to `withNode`/`pushForResult` are abstract. A DSL body is a list of actions (opaque work, `finish()`, a raise, a subflow). A helper's block is its outcome plus whether the flow was disposed meanwhile.
- Navigation by other callers while a helper waits (`external`) is one run of navigator calls made through `mutateNavigator`, after the helper's push and before any dispose. Its hooks are those of the stack diff, which coincide with those of `push`/`pop` calls when the stack's nodes are distinct. A run that would fail or empty the stack is not made: the caller that issued it sees that failure.
- `NavFlow`'s `navigatorFactory` is fixed to the default `KmposableStackNavigator`, and the open members `createEntry`, `attachNode`, `detachNode` and `onNodeOutput` keep their default bodies. Subclasses that override them are not modelled.
- FlowScriptDsl.FlowScriptExecutor.Run: a step's "Step: <name>" trace is always logged as an event, whether or not an `onTrace` callback was given. The scope's own `Trace` models the callback.
- `action { }` runs its block as is, and `awaitOutput` with a custom predicate is `AwaitOutput`. Neither has a separate member.
- NavigatorExtensions.PushForResult: requires that the navigator calls other actors make during the race all succeed, and that removal wins only once the entry is gone. A failing external call belongs to that actor, not to this call.
- Overlay.RunAutoCloseOverlay: `runCatching` around `currentTopNode()` cannot fail in the model, because a started flow always has a top.
- NavFlow.NavFlow.SendEvent: returns the node the event is dispatched to. The unchecked cast and the node's `onEvent` are not modelled.
- NavFlowScript.ScriptScope.AwaitOutput: an await that would stay suspended forever on an open, empty channel is modelled as ending with the job's cancellation (`JobCancelled`). This is the only way such a script ends.
- NodeRenderer.NodeRenderer.Render: the error carries the node's class tag instead of the formatted message text.
- NavFlowScript.ScriptScope.ShowNode, ShowRoot, PushNode, ReplaceTop: before `start()` these follow the corrected `mutateNavigator` and raise NotStarted without changing anything. The source's versions call the unguarded `mutateNavigator` and run and synchronise before `start()` (see Findings). `NavFlow.NavFlow.MutateNavigatorUnguarded` models that path.
- NavFlowScript.LaunchNavFlowScript: the script body is abstract, so its outcome is an input that passes through unchanged; the contract's content is that the scope is disposed on both paths.
- Integer widths play no part: stack sizes and indices stay far below 32-bit limits, so `int` is used throughout.

## Findings

| source | as written | input that shows it | evidently intended | confidence | as-written member | corrected member |
|---|---|---|---|---|---|---|
| library-core/src/commonMain/kotlin/dev/goquick/kmposable/runtime/NavFlow.kt:247-254 | `mutateNavigator` has no started check, unlike every other call that changes the stack. Before `start()` it attaches the nodes it brings in, `start()` then attaches the top again, and `dispose()` detaches the root, which was never attached | a flow on `root`; `mutateNavigator { push(a) }` before `start()`; then `start()` and `dispose()`. Nodes attached: [a, a]; nodes detached: [root, a] | refuse the call before `start()` (`ensureStarted()`), as `push`, `pop` and the replace calls do, so that every attach is paired with one detach | not executed | NavFlow.PreStartMutationUnpaired | NavFlow.NavFlow.MutateNavigator |

# Heap-introspection agent: a verified model

This project models the core of a JVMTI memory agent for a Java debugger,
together with the Java code that talks to it. The agent answers questions
about a paused JVM's heap: the shallow and retained sizes of objects and
classes, the objects a given object holds, the paths from an object to its
closest GC roots, and which instances of a class are reachable from an
object. JVMTI calls the agent back once per heap reference or heap object,
and those callbacks only read and write object tags. The model turns each
callback into a transition over an abstract heap. The heap is a sequence of
reported references (referrer or heap root, referee, kind, size, class tag)
plus a map from objects to their tags.

Each source file has its own module, in a file of the same name:

- The retained/shallow size engine:
  `SizesState` (the four-bit per-query state byte), `TagInfoArrays` (the
  index-sorted `(query, state)` arrays and their two-pointer merge),
  `SizesTags` (reference-counted shared tags, `merge`, `shouldMerge`),
  `SizesCallbacks` and `SizesPhases` (the heap callbacks and the `tagHeap`
  phases), `RetainedSizeAction` (the older copy of the callbacks), and the
  drivers `RetainedSizeByClasses`, `RetainedSizeByObjects`,
  `RetainedSizeAndHeldObjects`, `RetainedSizeByObjectsMerged`,
  `ShallowSizeByClasses` and `SizeByClasses`.
- The graph algorithms and the older size prototypes:
  `DominatorTree` and `RetainedSizeViaDominatorTree` (two Lengauer–Tarjan
  retained-size calculators, sharing the forest facts of `DominatorForest`),
  `HeapDump` (graph building and Kosaraju's strongly connected components),
  `ObjectsSize` and `ObectSize` (the flag-based prototypes).
- The GC-root path finder:
  `RootsState`, `RootsTags`, `Infos`, `PathsToClosestGcRoots` (the heap
  traversal), `PathsSearch` (the breadth-first search and path assembly) and
  `PathsResult` (the result handed back to Java). The class-reachability
  query is `ObjectsOfClassInHeap`.
- The control state machines:
  `TimedAction` (status precedence and the traversal stop check),
  `CancellationChecker`, `CancellationManager` and `ProgressManager`.
- The Java side:
  `ListenerRegistry` (the copy-on-write listener array), `ListenerHolders`
  (the exact-class allocation filter), `TestBase` (decoding and
  canonicalising agent results), `TestTrees` and `TestNodes` (the fixture
  builders).
- Shared modules:
  `Jvmti` (reference kinds, visit-control results, error results), `Utils`,
  `Text` (decimal text) and `Counting` (facts about finite sums).

Code that updates state in place is modelled imperatively. Callback objects,
actions and Java objects become classes, buffers become arrays, and loops
carry invariants. Each such method is proved against a function on values,
and the properties the code promises are lemmas about those functions.
Where two source files are historical variants of the same logic, each is
modelled as written in its own module. Lemmas connect the variants where
they agree (for example `RetainedSizeAction.AgreesWithNewer`).

Inputs the model takes from its caller:

- The references and heap objects JVMTI reports, in any order.
- The current instant of the steady clock.
- Whether the cancellation file exists.
- The answers of JVMTI queries that the code only forwards.

## Model

| member | source | states |
|---|---|---|
| Jvmti.ToJint | src/heap_dump.cpp:99 | a narrowing cast to jint keeps the value modulo 2^32 inside the jint range, and keeps any value already in range |
| Text.NatToString | src/progress_manager.cpp:27-29 | the text a stream writes for a counter is a non-empty run of digits |
| Text.NatToStringValue | src/progress_manager.cpp:27-29 | the digits read back as the value written |
| Text.ParseNatOf | src/progress_manager.cpp:27-29 | reading a number from the written digits followed by a non-digit gives the value and the rest |
| TagInfoArrays.Find | src/sizes/tag_info_array.h:39-41 | a query has a state in the array exactly when its index occurs there |
| TagInfoArrays.MergedLength | src/sizes/tag_info_array.cpp:35-71 | the merge writes exactly as many entries as `getNewArraySize` counts |
| TagInfoArrays.MergedSorted | src/sizes/tag_info_array.cpp:35-71 | the merge of two sorted arrays is sorted and holds exactly the union of their indices |
| TagInfoArrays.MergedSizeIsUnion | src/sizes/tag_info_array.cpp:87-110 | for sorted inputs the size counted is the number of distinct indices of the union, at most one per query |
| TagInfoArrays.MergedFind | src/sizes/tag_info_array.cpp:35-71 | every query's merged state is the combination of its referee and referrer states: both present gives `updateState`, referee only marks reachable-outside, referrer only starts from the referee's visited flag |
| TagInfoArrays.AppendSorted | src/sizes/tag_info_array.cpp:73-85 | appending entries whose indices all exceed the existing ones keeps the array sorted |
| TagInfoArrays.TagInfoArray.Empty | src/sizes/tag_info_array.cpp:13-15 | a valid array without entries |
| TagInfoArrays.TagInfoArray.Single | src/sizes/tag_info_array.cpp:21-23 | a valid array holding the one (index, state) entry |
| TagInfoArrays.TagInfoArray.Copy | src/sizes/tag_info_array.cpp:25-29 | fresh storage holding the same entries as the original |
| TagInfoArrays.TagInfoArray.Move | src/sizes/tag_info_array.cpp:31-33 | takes over the other array's storage, entries and size; the moved-from array is left without storage but with its old size |
| TagInfoArrays.TagInfoArray.Merge | src/sizes/tag_info_array.cpp:35-71 | corrected: fresh storage of exactly as many entries as the merge writes, counted without the `uint16` wrap, holding the merged entries, with the referee's first entry deciding the visited flag; no bound on the merged size is needed |
| TagInfoArrays.FullMergeWraps | src/sizes/tag_info_array.cpp:35-38 | two valid sorted arrays of 32768 entries each whose merge writes 65536 entries, while the `uint16` count of `getNewArraySize` is 0 |
| TagInfoArrays.CountMergedEntries | src/sizes/tag_info_array.cpp:87-110 | the two-pointer count of `getNewArraySize`, without the wrap, is exactly the number of entries the merge writes |
| TagInfoArrays.TagInfoArray.Extend | src/sizes/tag_info_array.cpp:73-85 | the entries become the old entries followed by the other array's, and the size is the sum |
| TagInfoArrays.MergeEntries | src/sizes/tag_info_array.cpp:40-70 | the three two-pointer loops fill a fresh array of the counted size with exactly the merged entries |
| TagInfoArrays.MergeCommon | src/sizes/tag_info_array.cpp:43-58 | the first loop stops when either input is exhausted, with the written prefix equal to the merge's prefix and the rest still to be merged |
| TagInfoArrays.MergeReferrerTail | src/sizes/tag_info_array.cpp:60-64 | the second loop exhausts the referrer and keeps the written prefix equal to the merge's |
| TagInfoArrays.MergeReferreeTail | src/sizes/tag_info_array.cpp:66-70 | the third loop exhausts the referee and fills the whole array with the merge |
| TagInfoArrays.GetNewArraySize | src/sizes/tag_info_array.cpp:87-110 | the count is the merged size modulo 2^16, the width of `query_size_t` |
| SizesState.CreateState | src/sizes/sizes_state.cpp:21-36 | each of the four predicates reads back exactly its flag, and bits 4-7 stay clear |
| SizesState.StateRoundTrip | src/sizes/sizes_state.cpp:5-36 | a state below 16, decoded into its four flags and packed again, is unchanged |
| SizesState.DefaultIsVisited | src/sizes/sizes_state.cpp:21-36 | leaving out the last flag gives an already-visited state |
| SizesState.IsRetained | src/sizes/sizes_state.cpp:38-40 | retained iff start object, or in the subtree and not reachable from outside; start objects are always retained |
| SizesState.UpdateState | src/sizes/sizes_state.cpp:42-50 | keeps the start bit; in-subtree is the disjunction; reachable-outside is inherited only from a non-start referrer; the result is visited |
| SizesState.UpdateStateMonotone | src/sizes/sizes_state.cpp:42-50 | the update never clears in-subtree or reachable-outside |
| SizesState.UpdateStateIdempotent | src/sizes/sizes_state.cpp:42-50 | updating twice from the same referrer state equals updating once |
| SizesState.StartReferrerDoesNotLeak | src/sizes/sizes_state.cpp:42-50 | a start-object referrer never makes an object reachable from outside |
| SizesState.AsVisitedFromUntagged | src/sizes/sizes_state.cpp:52-56 | sets reachable-outside and visited, keeps every other bit; a non-start object is then not retained |
| SizesTags.ShouldMerge | src/sizes/sizes_tags.cpp:129-155 | on sorted entry arrays, the answer is true exactly when some (index, state) entry of the referrer is missing from the referee |
| SizesTags.CoveredCard | src/sizes/sizes_tags.cpp:129-133 | a sorted referrer whose entries all occur in a sorted referee is no longer than it, so the length shortcut never answers wrongly |
| SizesTags.Unmark | src/sizes/sizes_tags.cpp:52-58 | same length and indices; every state loses its start mark, keeps in-subtree, and stays reachable-outside only if it was so and was not a start entry; sortedness is kept |
| SizesTags.CopyWithoutStartMarksEntries | src/sizes/sizes_tags.cpp:52-62 | the loop produces exactly the unmarked entries |
| SizesTags.VisitAll | src/sizes/sizes_tags.cpp:86-90 | same length and indices; every state becomes reachable-outside and visited and keeps its other bits; sortedness is kept |
| SizesTags.AsVisitedEntries | src/sizes/sizes_tags.cpp:86-90 | the in-place loop leaves exactly the visited entries |
| SizesTags.InitialStore | src/sizes/sizes_tags.cpp:6-8 | before any operation only the three static tags exist, no heap tag is live and the balance is zero |
| SizesTags.AddValid | src/sizes/sizes_tags.cpp:42-50 | a create puts the record at an address never used before and keeps the store valid, with the balance counting the live heap tags |
| SizesTags.AfterShare | src/sizes/sizes_tags.cpp:64-70 | a start tag is copied without start marks into a fresh tag (balance + 1); any other tag gains one reference and is returned itself |
| SizesTags.UnrefTags | src/sizes/sizes_tags.cpp:76-84 | the statics are never touched; another tag survives exactly when it had more than one reference, then with one fewer; every other tag is unchanged |
| SizesTags.AfterMerge | src/sizes/sizes_tags.cpp:122-127 | the merged tag is the freshly created one |
| SizesTags.CreateValid | src/sizes/sizes_tags.cpp:42-45 | each create (start tag, class tag, class start tag) keeps the store valid |
| SizesTags.ShareValid | src/sizes/sizes_tags.cpp:64-70 | share keeps the store valid and returns a live tag other than "untagged" |
| SizesTags.UnrefValid | src/sizes/sizes_tags.cpp:76-84 | unref keeps the store valid, the balance included |
| SizesTags.DeleteValid | src/sizes/sizes_tags.cpp:38-40 | destroying a heap tag keeps the store valid and decrements the balance |
| SizesTags.VisitValid | src/sizes/sizes_tags.cpp:86-90 | rewriting a tag's entries and marking it referred keep the store valid |
| SizesTags.MergeValid | src/sizes/sizes_tags.cpp:122-127 | merge keeps the store valid, and the merged array has at most one entry per query |
| SizesTags.ExtendValid | src/sizes/tag_info_array.cpp:73-85 | appending entries that all come after the existing ones keeps the store valid |
| SizesTags.ShareAccounted | src/sizes/sizes_tags.cpp:64-70 | putting a shared tag into a slot that held no heap tag never takes a reference from any other tag |
| SizesTags.UnrefAccounted | src/sizes/sizes_tags.cpp:76-84 | releasing the slot's own tag takes away only that slot's reference |
| SizesTags.MergeAccounted | src/sizes/sizes_tags.cpp:122-127 | replacing the referee tag by the merged tag takes away only the slot's reference |
| SizesTags.InitialSlotsValid | src/sizes/sizes_tags.cpp:6-8 | with no slot tagged, no object holds a released tag |
| SizesTags.SlotUpdate | src/sizes/sizes_tags.cpp:64-84 | after a change accounted for the slot, every slot still holds a live tag and every heap tag has at least as many references as holders |
| SizesTags.SlotsKept | src/sizes/sizes_tags.cpp:86-90 | a change that keeps every count keeps every slot live |
| SizesTags.MergedWellFormed | src/sizes/sizes_tags.cpp:22-26 | the merge of two well-formed tags is well formed |
| SizesTags.TagStore.constructor | src/sizes/sizes_tags.cpp:6-8 | the store starts as the initial store and is valid |
| SizesTags.TagStore.Add | src/sizes/sizes_tags.cpp:42-45 | the new state is the store with the record added at a fresh address, and the store stays valid |
| SizesTags.TagStore.Create | src/sizes/sizes_tags.cpp:42-45 | adds a start tag of query `index`, keeping the store valid |
| SizesTags.TagStore.CreateMerged | src/sizes/sizes_tags.cpp:47-50 | adds the merge of two tags, keeping the store valid |
| SizesTags.TagStore.CopyWithoutStartMarks | src/sizes/sizes_tags.cpp:52-62 | adds a copy with unmarked entries, keeping the store valid |
| SizesTags.TagStore.CreateClassTag | src/sizes/sizes_tags.cpp:100-103 | adds a class tag without entries, keeping the store valid |
| SizesTags.TagStore.CreateClassStartTag | src/sizes/sizes_tags.cpp:105-108 | adds a class tag that is also a start tag, keeping the store valid |
| SizesTags.TagStore.Ref | src/sizes/sizes_tags.cpp:72-74 | one more reference to the tag, and nothing else changes |
| SizesTags.TagStore.Share | src/sizes/sizes_tags.cpp:64-70 | the new state is the shared state and the returned tag is live |
| SizesTags.TagStore.Unref | src/sizes/sizes_tags.cpp:76-84 | the new state is the unref state and the store stays valid |
| SizesTags.TagStore.Delete | src/sizes/sizes_tags.cpp:38-40 | the tag is gone and the balance drops by one |
| SizesTags.TagStore.VisitFromUntaggedReferrer | src/sizes/sizes_tags.cpp:86-90 | the tag's entries become the visited entries |
| SizesTags.TagStore.MarkReferred | src/sizes/sizes_tags.h:47-48 | the tag is marked already referred |
| SizesTags.TagStore.Merge | src/sizes/sizes_tags.cpp:122-127 | the new state is the merged state and the store stays valid |
| SizesTags.TagStore.Extend | src/sizes/tag_info_array.cpp:73-85 | appends another tag's entries to a tag's entries |
| CancellationChecker.SyscallSafeStep | src/cancellation_checker.cpp:13-29 | a real check happens exactly when the skip counter has reached the count; it then answers "file exists or deadline passed", resets the counter and records the time; otherwise it answers false and only bumps the counter |
| CancellationChecker.StepKeepsValid | src/cancellation_checker.cpp:16-21 | every call keeps the count between 10000 and the `unsigned int` maximum and the skip counter at most the count, so nothing wraps |
| CancellationChecker.ChecksBetween | src/cancellation_checker.cpp:13-29 | starting from any valid state, exactly the calls until the count is reached answer false without checking, and the next call makes the real check |
| CancellationChecker.Checker.constructor | src/cancellation_manager.cpp:6-9 | the checker starts with the given deadline and the given counters, as the manager built by these lines does |
| CancellationChecker.Checker.ShouldStopExecution | src/cancellation_checker.cpp:6-11 | true exactly when the cancellation file exists or the deadline has passed |
| CancellationChecker.Checker.ShouldStopExecutionSyscallSafe | src/cancellation_checker.cpp:13-29 | the new counters and the answer are those of one step |
| CancellationManager.ManagerStep | src/cancellation_manager.cpp:18-33 | as written: a real check exactly when the counter reaches the count; the count is multiplied by ten modulo 2^32 after a fast check, with no cap |
| CancellationManager.ManagerQuiet | src/cancellation_manager.cpp:31-32 | calls before the count is reached answer false and only advance the skip counter |
| CancellationManager.FirstCallsQuiet | src/cancellation_manager.cpp:6-9 | a new manager answers false without any system call on its first 10000 calls |
| CancellationManager.FastCheckStep | src/cancellation_manager.cpp:21-22 | a real check within a second of the last multiplies the count by ten, modulo 2^32 |
| CancellationManager.ChecksWrapToZero | src/cancellation_manager.cpp:21-22 | the sixth consecutive fast check wraps the count, the seventh makes it smaller, and after 28 the count is 0 |
| CancellationManager.ZeroCountChecksAlways | src/cancellation_manager.cpp:18-29 | with the count at 0 every call makes the real check, and fast calls keep the count at 0 |
| CancellationManager.Manager.constructor | src/cancellation_manager.cpp:6-9 | 10000 calls to skip, none skipped yet, and the given deadline |
| CancellationManager.Manager.ShouldStopExecution | src/cancellation_manager.cpp:11-16 | true exactly when the cancellation file exists or the deadline has passed |
| CancellationManager.Manager.ShouldStopExecutionSyscallSafe | src/cancellation_manager.cpp:18-33 | the new counters and the answer are those of one as-written step |
| TimedAction.GetErrorCode | src/timed_action.cpp:13-20 | cancelled exactly when the cancellation file exists; timed out exactly when it does not and the deadline has passed; OK otherwise |
| TimedAction.ShouldStopExecution | src/timed_action.cpp:22-24 | stop exactly when the file exists or the deadline has passed |
| TimedAction.AsWrittenOnlyFirst | src/timed_action.cpp:26-39 | as written, the counter sticks at 1 after the first call, so only the very first call checks |
| TimedAction.CorrectedCounter | src/timed_action.cpp:26-39 | with the counter bumped on every call, after n > 0 calls it holds (n - 1) mod 10000 + 1 |
| TimedAction.CorrectedEveryInterval | src/timed_action.cpp:26-39 | with the corrected counter, exactly the calls numbered 0, 10000, 20000, ... make the real check |
| TimedAction.ThrottleNeverRechecks | src/timed_action.cpp:29-36 | call number 10000 checks with the corrected counter and does not as written |
| TimedAction.TraversalCheck.constructor | src/timed_action.cpp:27 | the static counter starts at 0 |
| TimedAction.TraversalCheck.ShouldStopExecutionDuringHeapTraversal | src/timed_action.cpp:26-39 | as written: the counter follows one as-written step and the answer is "stop" only on a checking call whose check says stop |
| TimedAction.TraversalCheck.ShouldStopExecutionEveryInterval | src/timed_action.cpp:26-39 | corrected: the same, with the counter incremented on every call |
| ProgressManager.Accepted | src/progress_manager.cpp:9-17 | a value below the current one is ignored; any other is stored |
| ProgressManager.AcceptedClamps | src/progress_manager.cpp:12-16 | with a current value in range, an accepted value is the new value clamped into [minValue, maxValue] and never below the current value |
| ProgressManager.MinClampUnused | src/progress_manager.cpp:10-13 | once the current value is at least minValue, a value below minValue is always ignored, so the clamp to minValue never fires |
| ProgressManager.ProgressJsonRoundTrip | src/progress_manager.cpp:24-32 | the progress text reads back as the three counters and the message it was written from |
| ProgressManager.ProgressManagerState.constructor | src/progress_manager.cpp:4-7 | the counter starts at minValue and no file name is set |
| ProgressManager.ProgressManagerState.SetProgressFileName | src/progress_manager.cpp:42-44 | the file name is replaced and the counter is kept |
| ProgressManager.ProgressManagerState.WriteProgressInfoInJSONFormat | src/progress_manager.cpp:24-32 | the text appended piece by piece is the progress text of the current counters and the message |
| ProgressManager.ProgressManagerState.UpdateProgress | src/progress_manager.cpp:9-22 | an ignored value changes and writes nothing; an accepted one becomes the current value and the progress text is written exactly when a file name is set; the counter stays in range and never decreases |
| Utils.ReferenceTypeDescription | src/utils.cpp:5-34 | the description of each kind has the length of the text the source returns for it |
| Utils.DescriptionNamesKind | src/utils.cpp:5-34 | each of the seventeen descriptions identifies its kind, and the unknown text identifies none |
| Utils.DescriptionsDistinct | src/utils.cpp:5-34 | different kinds get different descriptions |
| Utils.UnknownKinds | src/utils.cpp:33 | a value is described as "Unknown reference kind" exactly when it is none of the seventeen kinds |
| Utils.IgnoredKinds | src/utils.cpp:36-44 | the ignored kinds are exactly class, class loader, signers, protection domain, interface, constant pool and superclass; fields, array elements, static fields and every root are followed |
| Utils.TagDescriptionRoundTrip | src/utils.cpp:46-55 | the tag description names the three flags in a form that reads back to the same flags |
| RootsState.SetAttribute | src/roots/roots_state.cpp:42-44 | bit `offset` reads back as the value written and every other bit is kept |
| RootsState.OtherBitsKept | src/roots/roots_state.cpp:42-48 | two states that agree outside one bit agree on every other attribute |
| RootsState.Create | src/roots/roots_state.cpp:9-12 | both flags read back as given and every other bit is clear |
| RootsState.UpdateWeak | src/roots/roots_state.cpp:30-40 | the result is weak exactly when the referrer is weak and the state was weak or not visited yet; the visited bit and all others are kept |
| RootsState.UpdateFromItself | src/roots/roots_state.cpp:30-40 | a state updated from itself does not change |
| RootsState.StrongVisitedStaysStrong | src/roots/roots_state.cpp:35-39 | a visited strongly reachable state stays strong and visited whatever referrers it is updated from |
| RootsState.UpdatesKeepVisited | src/roots/roots_state.cpp:30-40 | updates never change the visited flag |
| RootsState.State.constructor | src/roots/roots_state.cpp:5-7 | neither flag set |
| RootsState.State.WithFlags | src/roots/roots_state.cpp:9-12 | the two flags as given |
| RootsState.State.SetAlreadyVisited | src/roots/roots_state.cpp:14-16 | bit 0 is set to the value, the rest kept |
| RootsState.State.SetWeakSoftReachable | src/roots/roots_state.cpp:18-20 | bit 1 is set to the value, the rest kept |
| RootsState.State.UpdateWeakSoftReachableValue | src/roots/roots_state.cpp:30-40 | the new state is the update from the referrer's old state, also when the referrer is this very state |
| RootsTags.TagBalance.constructor | src/roots/roots_tags.h:10 | the balance starts at 0 |
| RootsTags.GcTag.constructor | src/roots/roots_tags.cpp:5-6 | a fresh state with neither flag set and no back-references |
| RootsTags.GcTag.WithWeak | src/roots/roots_tags.cpp:8-10 | not visited, weak as given |
| RootsTags.GcTag.ReferenceClassTag | src/roots/roots_tags.cpp:52-54 | `WeakSoftReferenceClassTag()` creates a weak tag with no back-references |
| RootsTags.GcTag.SetVisited | src/roots/roots_tags.cpp:44-46 | the visited flag is set and the weak flag kept |
| RootsTags.GcTag.UpdateState | src/roots/roots_tags.cpp:48-58 | every tag applies the state rule against its referrer, since `GcTag::updateState` is not virtual |
| RootsTags.Create | src/roots/roots_tags.cpp:19-22 | the balance grows by one; the new tag is unvisited and weak exactly when the class tag is non-null and weak |
| RootsTags.CreateDefault | src/roots/roots_tags.cpp:24-27 | the balance grows by one; the new tag is neither weak nor visited |
| RootsTags.CreateReferenceClassTag | src/roots/roots_tags.cpp:60-63 | the balance grows by one; the new tag is weak and unvisited |
| RootsTags.PointerToGcTag | src/roots/roots_tags.cpp:29-34 | a non-null tag is returned itself; the tag 0 gives a fresh default tag that the balance does not count |
| RootsTags.Destroy | src/roots/roots_tags.cpp:12-17 | the balance drops by one and the back-reference records go with the tag |
| RootsTags.CleanTag | src/roots/roots_tags.cpp:36-38 | the balance drops by one, also for the tag 0, whose fresh tag was never counted |
| Infos.CreateReferenceInfo | src/roots/infos.cpp:48-82 | the record keeps tag and kind; field, static-field, array-element and constant-pool kinds carry their index; stack-local and JNI-local kinds carry thread, slot, depth and method, with slot -1 for JNI locals; every other kind carries nothing |
| Infos.BuildStackInfo | src/roots/infos.cpp:18-21 | the three numbers are thread id, depth, then slot |
| Infos.GetReferenceInfo | src/roots/infos.cpp:41-46 | a plain record gives null, an indexed record a one-element array of its index, a stack record its position and method |
| Infos.StackRoundTrip | src/roots/infos.cpp:18-21 | a reported stack record decodes back to the thread, slot and depth it was created with, with depth and slot swapped in the array as written |
| SizesCallbacks.HandleNoInfo | src/sizes/sizes_callbacks.cpp:10-31 | the edge is left to the caller exactly when the referrer is a real tag that is neither empty, new-info nor a class tag; otherwise it is handled here |
| SizesCallbacks.ReceiveNewInfo | src/sizes/sizes_callbacks.cpp:50-61 | the referrer's tag stays live afterwards |
| SizesCallbacks.AddRetainedSum | src/sizes/sizes_callbacks.cpp:150-164 | on a tag's sorted entries, every query slot gains the object's size exactly when the object's state for that query is retained |
| SizesCallbacks.AddRetainedInPlace | src/sizes/sizes_callbacks.cpp:156-161 | the in-place loop leaves exactly the sums of the specification |
| SizesCallbacks.HandleNoInfoSound | src/sizes/sizes_callbacks.cpp:10-31 | a handled edge keeps the store valid, leaves a live tag in the slot and takes no reference from any other tag |
| SizesCallbacks.GetTagsWithNewInfoSound | src/sizes/sizes_callbacks.cpp:38-65 | the callback keeps the store valid and accounts for the referee's slot |
| SizesCallbacks.VisitReferenceSound | src/sizes/sizes_callbacks.cpp:67-89 | the callback keeps the store valid and accounts for the referee's slot |
| SizesCallbacks.SpreadInfoSound | src/sizes/sizes_callbacks.cpp:91-111 | the callback keeps the store valid and accounts for the referee's slot |
| SizesCallbacks.RefStepSound | src/sizes/sizes_callbacks.cpp:38-111 | every reference callback keeps the store valid and accounts for the referee's slot |
| SizesCallbacks.ClearTagSound | src/sizes/sizes_callbacks.cpp:113-122 | clearing keeps the store valid and accounts for the slot |
| SizesCallbacks.RetagStartObjectsSound | src/sizes/sizes_callbacks.cpp:124-132 | retagging keeps the store valid and accounts for the slot |
| SizesCallbacks.TagObjectOfTaggedClassSound | src/sizes/sizes_callbacks.cpp:134-148 | destroying the old tag outright is sound while every heap tag has one reference, and the callback keeps that so |
| SizesCallbacks.ObjectStepSound | src/sizes/sizes_callbacks.cpp:113-148 | every object callback keeps the store valid and accounts for the slot |
| SizesCallbacks.ApplyEdge | src/sizes/sizes_callbacks.cpp:38-111 | a reported reference keeps the heap valid, its objects and the number of queries |
| SizesCallbacks.FollowAll | src/sizes/sizes_callbacks.cpp:38-111 | an iteration keeps the heap valid, its objects and the number of queries |
| SizesCallbacks.ApplyEdgeStop | src/sizes/sizes_callbacks.cpp:41-43 | a reference callback aborts exactly on a stop request, and an aborting one changes nothing |
| SizesCallbacks.FollowAllAborts | src/sizes/sizes_callbacks.cpp:41-43 | an iteration is aborted exactly when some callback during it is asked to stop; a stop at the first callback changes nothing |
| SizesCallbacks.ApplyObject | src/sizes/sizes_callbacks.cpp:113-164 | an object callback keeps the heap valid; an object the class filter does not report is untouched |
| SizesCallbacks.IterateAll | src/sizes/sizes_callbacks.cpp:113-164 | a heap iteration keeps the heap valid, its objects and the number of queries |
| SizesCallbacks.WalkAll | src/sizes/sizes_callbacks.cpp:166-196 | the walk keeps the heap valid and its objects, and ends either without error or with the timeout error |
| SizesCallbacks.WalkOne | src/sizes/sizes_callbacks.cpp:180-190 | an object whose tag is not recorded as carrying new information is left alone |
| SizesCallbacks.WalkAllTimesOut | src/sizes/sizes_callbacks.cpp:175-178 | the walk reports the timeout exactly when the deadline has passed before some object |
| SizesCallbacks.StopAborts | src/sizes/sizes_callbacks.cpp:41-43 | once a stop is requested every reference callback aborts and changes nothing |
| SizesCallbacks.JniReferencesIgnored | src/sizes/sizes_callbacks.cpp:45-47 | JNI local and global references change neither tag nor engine |
| SizesCallbacks.UntaggedReferrer | src/sizes/sizes_callbacks.cpp:11-24 | from a root or an empty-tag referrer, an untagged referee becomes the empty tag and a real referee becomes reachable from outside every query; in the new-info pass an already referred referee is released and becomes `TagWithNewInfo` |
| SizesCallbacks.ReferrerWithoutInfo | src/sizes/sizes_callbacks.cpp:25-28 | references from new-info, untagged or class-tagged referrers change nothing |
| SizesCallbacks.ShareIndices | src/sizes/sizes_tags.cpp:64-70 | sharing gives the referee every query index of the referrer |
| SizesCallbacks.MergeIndices | src/sizes/sizes_tags.cpp:122-127 | merging gives the referee every query index of both tags |
| SizesCallbacks.CoveredIndices | src/sizes/sizes_tags.cpp:129-155 | a referrer whose entries are all in the referee adds no query index, so skipping the merge loses nothing |
| SizesCallbacks.VisitReferenceSpreads | src/sizes/sizes_callbacks.cpp:77-86 | unless the referee is a class tag, its new tag knows every query the referrer knows; a new-info referee and a merged one enter the new-information record |
| SizesCallbacks.NewInfoPassMarks | src/sizes/sizes_callbacks.cpp:50-64 | the referrer is marked referred; an untagged referee shares its tag; a mergeable referee already referred is released and becomes `TagWithNewInfo`, another is merged |
| SizesCallbacks.SpreadInfoSpreads | src/sizes/sizes_callbacks.cpp:98-108 | between two tagged objects the referee leaves the new-information record and its new tag knows every query the referrer knows |
| SizesCallbacks.ClearTagReleases | src/sizes/sizes_callbacks.cpp:113-122 | the object is left untagged and its tag loses one reference; the balance drops exactly when that was its last |
| SizesCallbacks.RetagStartObjectsTags | src/sizes/sizes_callbacks.cpp:124-132 | an instance of listed class i marked `TagWithNewInfo` gets a fresh start tag with the one entry (i, start, in subtree), recorded as carrying new information |
| SizesCallbacks.RetagStartObjectsSkips | src/sizes/sizes_callbacks.cpp:124-132 | every other object is left alone |
| SizesCallbacks.TagObjectOfTaggedClassTags | src/sizes/sizes_callbacks.cpp:134-148 | an instance of listed class i gets a fresh tag with a start entry for query i, keeping the class id of its old tag, which is destroyed |
| SizesCallbacks.Callbacks.constructor | src/sizes/sizes_callbacks.cpp:8 | an initial store, an empty new-information record and an untagged heap |
| SizesCallbacks.Callbacks.TagsAreValidForMerge | src/sizes/sizes_callbacks.cpp:33-36 | true exactly when the tags differ, the merge brings something new and the referee is not a class tag |
| SizesCallbacks.Callbacks.HandleReferrersWithNoInfo | src/sizes/sizes_callbacks.cpp:10-31 | the result, new tag and new store are those of the specification |
| SizesCallbacks.Callbacks.GetTagsWithNewInfo | src/sizes/sizes_callbacks.cpp:38-65 | the new engine, visit code and tag are those of one new-info step |
| SizesCallbacks.Callbacks.VisitReference | src/sizes/sizes_callbacks.cpp:67-89 | the new engine, visit code and tag are those of one visit step |
| SizesCallbacks.Callbacks.SpreadInfo | src/sizes/sizes_callbacks.cpp:91-111 | the new engine, visit code and tag are those of one spread step |
| SizesCallbacks.Callbacks.ClearTag | src/sizes/sizes_callbacks.cpp:113-122 | the new engine and tag are those of one clear step |
| SizesCallbacks.Callbacks.RetagStartObjects | src/sizes/sizes_callbacks.cpp:124-132 | the new engine and tag are those of one retag step |
| SizesCallbacks.Callbacks.TagObjectOfTaggedClass | src/sizes/sizes_callbacks.cpp:134-148 | the new engine and tag are those of one class-tagging step |
| SizesCallbacks.Callbacks.VisitObject | src/sizes/sizes_callbacks.cpp:150-164 | an untagged object adds nothing; a tagged one adds its size to exactly the queries for which it is retained |
| SizesCallbacks.Callbacks.Report | src/sizes/sizes_callbacks.cpp:38-111 | the heap after one reported reference is that of the specification |
| SizesCallbacks.Callbacks.Offer | src/sizes/sizes_callbacks.cpp:113-164 | the heap after one offered object is that of the specification |
| SizesCallbacks.Callbacks.FollowReferences | src/sizes/sizes_callbacks.cpp:38-111 | the heap and the abort flag after an iteration are those of the specification |
| SizesCallbacks.Callbacks.IterateThroughHeap | src/sizes/sizes_callbacks.cpp:113-164 | the heap after a heap iteration is that of the specification |
| SizesCallbacks.Callbacks.WalkFromObject | src/sizes/sizes_callbacks.cpp:180-190 | the heap after one object's walk is that of the specification |
| SizesCallbacks.Callbacks.WalkHeapFromObjects | src/sizes/sizes_callbacks.cpp:166-196 | the heap and the error after the walk are those of the specification |
| SizesPhases.Pending | src/sizes/retained_size_action.h:56-58 | the collected objects are exactly the reported objects tagged `TagWithNewInfo` |
| SizesPhases.PendingWalks | src/sizes/retained_size_action.h:70 | the walks from the collected objects keep the heap valid and its objects, and time out only when the deadline has passed |
| SizesPhases.TagHeap | src/sizes/retained_size_action.h:51-71 | the five phases keep the heap valid, its objects and the number of queries, and end without error or with the timeout error |
| SizesPhases.VisitAndWalk | src/sizes/retained_size_action.h:66-70 | a stop request after the visiting pass always times out; otherwise only a passed deadline does |
| SizesPhases.TagHeapTimesOut | src/sizes/retained_size_action.h:51-71 | `tagHeap` times out whenever a phase boundary asks it to stop, and otherwise only when the deadline passes before a pending walk |
| SizesPhases.SetClassTag | src/sizes/retained_size_action.h:34-36 | tagging one class keeps the heap valid and its objects |
| SizesPhases.CreateTagsForClasses | src/sizes/retained_size_action.h:32-41 | tagging the listed classes keeps the heap valid, its objects, the queries and the new-information record |
| SizesPhases.CreateTagsForClassesTags | src/sizes/retained_size_action.h:32-41 | afterwards each listed class holds a class tag whose id is its last position plus one; a class listed twice keeps only the later tag |
| SizesPhases.CreateTagsForClassesKeeps | src/sizes/retained_size_action.h:32-41 | only the slots of the listed classes change |
| SizesPhases.TagObjectsOfClasses | src/sizes/retained_size_action.h:43-49 | tagging the classes and then offering every object keeps the heap valid, its objects and the queries |
| SizesPhases.CleanHeap | src/sizes/retained_size_action.h:22-30 | clearing keeps the heap valid and its objects, and the leak check fires exactly when some heap tag is still live |
| SizesPhases.CleanHeapUntags | src/sizes/retained_size_action.h:22-23 | afterwards every offered object is untagged and every other slot is as before |
| SizesPhases.CreateTagsForClassesInPlace | src/sizes/retained_size_action.h:32-41 | the callbacks' state ends as the specification's |
| SizesPhases.TagObjectsOfClassesInPlace | src/sizes/retained_size_action.h:43-49 | the callbacks' state ends as the specification's |
| SizesPhases.TagHeapInPlace | src/sizes/retained_size_action.h:51-71 | the callbacks' state and the error end as the specification's |
| SizesPhases.VisitAndWalkInPlace | src/sizes/retained_size_action.h:66-70 | the callbacks' state and the error end as the specification's |
| SizesPhases.CleanHeapInPlace | src/sizes/retained_size_action.h:22-30 | the callbacks' state and the leak answer end as the specification's |
| RetainedSizeAction.HandleNoInfo | src/sizes/retained_size_action.cpp:7-28 | the edge is left to the caller exactly when the referrer is a real tag that is neither empty, new-info nor of dynamic type `ClassTag` |
| RetainedSizeAction.ReceiveNewInfo | src/sizes/retained_size_action.cpp:42-55 | the referrer's tag stays live afterwards |
| RetainedSizeAction.SpreadInfoStep | src/sizes/retained_size_action.cpp:79-95 | the callback always continues the walk |
| RetainedSizeAction.NoStops | src/sizes/retained_size_action.cpp:79-95 | no reference answer of a walk asks to stop |
| RetainedSizeAction.WalkAllTimesOut | src/sizes/retained_size_action.cpp:127-157 | the walk times out exactly when the deadline has passed before some object, ends without error otherwise, and no walk is cut short |
| RetainedSizeAction.NeverAborts | src/sizes/retained_size_action.cpp:34-77 | the reference callbacks never abort a heap walk |
| RetainedSizeAction.AgreesWithNewer | src/sizes/retained_size_action.cpp:30-77 | where the dynamic-type test and the positive-id test agree, the callbacks do what the newer ones do without a stop request |
| RetainedSizeAction.GetTagsWithNewInfoSound | src/sizes/retained_size_action.cpp:34-57 | the callback keeps the store valid and accounts for the referee's slot |
| RetainedSizeAction.HandleNoInfoSound | src/sizes/retained_size_action.cpp:7-28 | a handled edge keeps the store valid, leaves a live tag and is accounted |
| RetainedSizeAction.VisitReferenceSound | src/sizes/retained_size_action.cpp:59-77 | the callback keeps the store valid and accounts for the referee's slot |
| RetainedSizeAction.StartTagSound | src/sizes/retained_size_action.cpp:108-125 | both iteration callbacks keep the store valid and accounted; they only put a fresh start tag where no heap tag was |
| RetainedSizeAction.TagObjectOnlyUntagged | src/sizes/retained_size_action.cpp:118-125 | an already tagged object is left alone |
| RetainedSizeAction.Callbacks.constructor | src/sizes/retained_size_action.cpp:5 | the given store and an empty new-information record |
| RetainedSizeAction.Callbacks.TagsAreValidForMerge | src/sizes/retained_size_action.cpp:30-32 | true exactly when the referee is not a class tag, the tags differ and the merge brings something new |
| RetainedSizeAction.Callbacks.HandleReferrersWithNoInfo | src/sizes/retained_size_action.cpp:7-28 | the result, new tag and store are those of the specification |
| RetainedSizeAction.Callbacks.GetTagsWithNewInfo | src/sizes/retained_size_action.cpp:34-57 | the engine, visit code and tag are those of one step |
| RetainedSizeAction.Callbacks.VisitReference | src/sizes/retained_size_action.cpp:59-77 | the engine, visit code and tag are those of one step |
| RetainedSizeAction.Callbacks.SpreadInfo | src/sizes/retained_size_action.cpp:79-95 | the engine, visit code and tag are those of one step |
| RetainedSizeAction.Callbacks.RetagStartObjects | src/sizes/retained_size_action.cpp:108-116 | the engine and tag are those of one step |
| RetainedSizeAction.Callbacks.TagObjectOfTaggedClass | src/sizes/retained_size_action.cpp:118-125 | the engine and tag are those of one step |
| RetainedSizeByObjects.FirstTrue | src/sizes/retained_size_by_objects.cpp:41 | the position of the first stop answer: every earlier answer is no, the answer there is yes, and without a yes it is the length |
| RetainedSizeByObjects.Enumerate | src/sizes/retained_size_by_objects.cpp:38-39 | the loop makes listed object `i` the start object of query `i`, for every position |
| RetainedSizeByObjects.CreateTagForObject | src/sizes/retained_size_by_objects.cpp:22-35 | an untagged object or one holding `TagWithNewInfo` gets a fresh start tag of query `i`; an object with a real tag keeps it and its entries grow by the start entry; the heap stays valid and the tag counter moves on by one |
| RetainedSizeByObjects.ExtendedStore | src/sizes/retained_size_by_objects.cpp:27-29 | extending a live tag by the new tag's entry and deleting the new tag keeps the tag store valid and changes only that tag's entries |
| RetainedSizeByObjects.ExtendedValid | src/sizes/retained_size_by_objects.cpp:27-29 | the same extension keeps the whole heap valid |
| RetainedSizeByObjects.StartsOf | src/sizes/retained_size_by_objects.cpp:37-45 | the start entries a list of queries gives one object are start-state entries of queries naming that object |
| RetainedSizeByObjects.CreateTags | src/sizes/retained_size_by_objects.cpp:37-45 | creating the start tags of a list of queries keeps the heap valid, its objects and its query count |
| RetainedSizeByObjects.CreateTagsTagged | src/sizes/retained_size_by_objects.cpp:37-45 | afterwards every named object holds a tag of its own, different from every other named object's, whose entries are exactly its start entries; every other object and every older tag is unchanged |
| RetainedSizeByObjects.TagStep | src/sizes/retained_size_by_objects.cpp:38-39 | one more query keeps that property, whether its object was named before or not |
| RetainedSizeByObjects.EnumeratedStarts | src/sizes/retained_size_by_objects.cpp:38-39 | an object's start entries are exactly the positions it is listed at |
| RetainedSizeByObjects.EnumeratedObjects | src/sizes/retained_size_by_objects.cpp:38-39 | the start objects are exactly the listed objects |
| RetainedSizeByObjects.CreateTagsForObjects | src/sizes/retained_size_by_objects.cpp:37-45 | the loop keeps the heap valid and returns the timeout error exactly when some stop answer was yes |
| RetainedSizeByObjects.CreateTagsForObjectsTags | src/sizes/retained_size_by_objects.cpp:37-45 | without a stop, each listed object holds a real tag whose entries are the start entries of exactly the positions it is listed at, and unlisted objects keep their slots |
| RetainedSizeByObjects.CreateTagsForObjectsExit | src/sizes/retained_size_by_objects.cpp:41 | the loop ends right after the first stop, with the tags of the objects up to it, or after the last object without error |
| RetainedSizeByObjects.NewInfoStarts | src/sizes/retained_size_by_objects.cpp:49-58 | the collected pairs are in position order and are exactly the listed objects holding `TagWithNewInfo`, with their positions |
| RetainedSizeByObjects.RetagStartObjects | src/sizes/retained_size_by_objects.cpp:47-67 | the heap stays valid; a stop in the collecting loop returns the timeout error and changes nothing; a timeout only follows a stop; objects not holding `TagWithNewInfo` keep their slots |
| RetainedSizeByObjects.RetagIsCreateTags | src/sizes/retained_size_by_objects.cpp:60-64 | without a stop the second loop is `createTagForObject` on every collected pair, in order |
| RetainedSizeByObjects.RetagStartObjectsTags | src/sizes/retained_size_by_objects.cpp:47-67 | without a stop each listed object that held `TagWithNewInfo` holds a tag of its own with the start entries of exactly its positions |
| RetainedSizeByObjects.TagHeapForObjects | src/sizes/retained_size_by_objects.cpp:69-89 | the five phases keep the heap valid, its objects and its query count, and end without error or with the timeout error |
| RetainedSizeByObjects.TagHeapForObjectsTimesOut | src/sizes/retained_size_by_objects.cpp:69-89 | a timeout comes only from a stop answer or a passed deadline, and a stop at a phase boundary or in the collecting loop always gives one |
| RetainedSizeByObjects.EstimateObjectsSizes | src/sizes/retained_size_by_objects.cpp:11-20 | the result is no error or the timeout (a repeated object only makes `calculateRetainedSizes` log and go on); the timeout only follows a stop answer or a passed deadline; any error gives an empty result; a stop in the first loops always times out |
| RetainedSizeByObjects.EstimateObjectsSizesResult | src/sizes/retained_size_by_objects.cpp:91-99 | without an error there is one slot per listed object, also when an object is listed more than once, and slot `q` holds the total size of the objects query `q` retains |
| RetainedSizeByObjects.CreateTagForObjectInPlace | src/sizes/retained_size_by_objects.cpp:22-35 | updating the callbacks' tags and slots in place gives the heap `CreateTagForObject` describes and keeps them valid |
| RetainedSizeByObjects.CreateNextTag | src/sizes/retained_size_by_objects.cpp:39 | one more query in place extends the tags of the earlier queries as `CreateTags` says |
| RetainedSizeByObjects.CreateTagsForObjectsStep | src/sizes/retained_size_by_objects.cpp:38-42 | one iteration in place adds the tag of listed object `i` |
| RetainedSizeByObjects.CreateTagsForObjectsInPlace | src/sizes/retained_size_by_objects.cpp:37-45 | the loop in place ends in the state and with the error `CreateTagsForObjects` gives |
| RetainedSizeByObjects.CollectNewInfo | src/sizes/retained_size_by_objects.cpp:49-58 | the collecting loop stops exactly when some collect answer is yes, and otherwise returns exactly the listed objects holding `TagWithNewInfo` with their positions |
| RetainedSizeByObjects.RetagCollected | src/sizes/retained_size_by_objects.cpp:60-64 | the second loop tags the collected objects up to and including the first stop, and reports the timeout exactly when there was a stop |
| RetainedSizeByObjects.RetagStartObjectsInPlace | src/sizes/retained_size_by_objects.cpp:47-67 | both loops in place end in the state and with the error `RetagStartObjects` gives |
| RetainedSizeByObjects.TagHeapForObjectsInPlace | src/sizes/retained_size_by_objects.cpp:69-89 | the phases in place end in the state and with the error `TagHeapForObjects` gives |
| RetainedSizeByObjects.EstimateObjectsSizesInPlace | src/sizes/retained_size_by_objects.cpp:91-99 | the whole estimate in place ends in the state, error and result `EstimateObjectsSizes` gives |
| RetainedSizeByClasses.EntriesBounded | src/sizes/retained_size_by_classes.cpp:14-17 | on a valid heap every entry an object's tag holds names a query below the query count, so the slot it adds to exists, and the entries are sorted |
| RetainedSizeByClasses.Zeros | src/sizes/retained_size_by_classes.cpp:59 | the resized result has one slot per class, every slot zero |
| RetainedSizeByClasses.RetainedSizes | src/sizes/retained_size_by_classes.cpp:8-22 | the iteration with `visitObject` keeps one slot per query |
| RetainedSizeByClasses.RetainedSizesTotal | src/sizes/retained_size_by_classes.cpp:8-22 | the iteration adds to each query's slot exactly the total size of the tagged objects that query retains, untagged objects adding nothing |
| RetainedSizeByClasses.AddStart | src/sizes/retained_size_by_classes.cpp:38-40 | adding an object's size for its start entries keeps one slot per query |
| RetainedSizeByClasses.AddStartSum | src/sizes/retained_size_by_classes.cpp:31-41 | every query gains the object's size exactly when the object is one of that query's start objects |
| RetainedSizeByClasses.ShallowAndRetainedSizes | src/sizes/retained_size_by_classes.cpp:25-44 | the iteration with `visitObjectForShallowAndRetainedSize` keeps the length of both vectors |
| RetainedSizeByClasses.ShallowAndRetainedTotals | src/sizes/retained_size_by_classes.cpp:25-44 | the first vector gains each query's shallow total (its start objects) and the second its retained total |
| RetainedSizeByClasses.ShallowAtMostRetained | src/sizes/retained_size_by_classes.cpp:34-40 | with non-negative sizes a query's shallow total is never negative and never above its retained total, because a start object is retained |
| RetainedSizeByClasses.ShallowAndRetainedFromZeros | src/sizes/retained_size_by_classes.cpp:89-92 | from two zeroed vectors with one slot per class each slot ends holding its shallow and its retained total, the shallow one never above the retained one when sizes are non-negative |
| RetainedSizeByClasses.TagPhases | src/sizes/retained_size_by_classes.cpp:51-57 | tagging the classes' objects and the heap keeps the heap valid; the error is none, the timeout or the interruption; the interruption comes only from a stop at the two phase ends, and any stop answer gives an error |
| RetainedSizeByClasses.GetRetainedSizeByClasses | src/sizes/retained_size_by_classes.cpp:50-72 | after an error the result is empty, as `executeOperation` returns an empty array |
| RetainedSizeByClasses.RetainedSizeByClassesResult | src/sizes/retained_size_by_classes.cpp:50-61 | without an error there is one slot per class and slot `q` holds the total size of the objects the class's query retains |
| RetainedSizeByClasses.ZeroTotals | src/sizes/retained_size_by_classes.cpp:59-60 | from zeros the iteration leaves exactly each query's retained total in its slot |
| RetainedSizeByClasses.ShallowAndRetainedResult | src/sizes/retained_size_by_classes.cpp:78-107 | after an error both vectors are empty; otherwise each has one slot per class holding that class's shallow and retained total, the shallow one never above the retained one when sizes are non-negative |
| RetainedSizeByClasses.VisitObjects | src/sizes/retained_size_by_classes.cpp:8-22 | running `visitObject` on every object of the iteration over a result array leaves the totals `RetainedSizes` gives |
| RetainedSizeByClasses.VisitObjectForShallowAndRetainedSize | src/sizes/retained_size_by_classes.cpp:25-44 | one call updates the two distinct arrays by the start and the retained contributions of the object's entries |
| RetainedSizeByClasses.VisitObjectsForShallowAndRetained | src/sizes/retained_size_by_classes.cpp:25-44 | the whole iteration over the two arrays leaves the vectors `ShallowAndRetainedSizes` gives |
| RetainedSizeByClasses.Fill | src/sizes/retained_size_by_classes.cpp:59 | the array is all zeros afterwards |
| RetainedSizeByClasses.RetainedTotals | src/sizes/retained_size_by_classes.cpp:59-60 | a zeroed vector with one slot per query followed by the iteration |
| RetainedSizeByClasses.ShallowAndRetainedTotalsInPlace | src/sizes/retained_size_by_classes.cpp:89-92 | two zeroed vectors followed by the shallow-and-retained iteration |
| RetainedSizeByClasses.TagPhasesInPlace | src/sizes/retained_size_by_classes.cpp:51-57 | the tagging phases in place end in the state and with the error `TagPhases` gives |
| RetainedSizeByClasses.RetainedSizeByClassesInPlace | src/sizes/retained_size_by_classes.cpp:50-61 | the whole operation in place gives the state, error and result `GetRetainedSizeByClasses` gives |
| RetainedSizeByClasses.ShallowAndRetainedInPlace | src/sizes/retained_size_by_classes.cpp:78-93 | the whole operation in place gives the state, error and vectors of the functional model |
| RetainedSizeAndHeldObjects.RetainedCount | src/sizes/retained_size_and_held_objects.cpp:15-21 | the number of retained entries is at most the number of entries, and positive exactly when some entry is retained |
| RetainedSizeAndHeldObjects.HeldTag | src/sizes/retained_size_and_held_objects.cpp:14-20 | the slot ends as `HeldObjectTag` exactly when some entry is retained, and untagged otherwise |
| RetainedSizeAndHeldObjects.CountObject | src/sizes/retained_size_and_held_objects.cpp:8-25 | an untagged object changes nothing; a tagged one releases its tag once and gets `HeldTag` of its entries; no other slot changes and the heap stays valid |
| RetainedSizeAndHeldObjects.RetainedSize | src/sizes/retained_size_and_held_objects.cpp:17-20 | an object adds its size once per retained entry: nothing without one, its size with exactly one, never a negative amount for a non-negative size |
| RetainedSizeAndHeldObjects.CountAll | src/sizes/retained_size_and_held_objects.cpp:77-78 | the iteration keeps the heap valid, its objects and its query count |
| RetainedSizeAndHeldObjects.CountAllFirst | src/sizes/retained_size_and_held_objects.cpp:77-78 | the iteration is the first object's callback followed by the iteration over the rest |
| RetainedSizeAndHeldObjects.Expected | src/sizes/retained_size_and_held_objects.cpp:19 | the size the iteration should find is non-negative when every size is |
| RetainedSizeAndHeldObjects.CountObjectKeepsOthers | src/sizes/retained_size_and_held_objects.cpp:23 | releasing one object's tag leaves the entries every other object sees unchanged, even when they shared the tag |
| RetainedSizeAndHeldObjects.CountAllStep | src/sizes/retained_size_and_held_objects.cpp:77-78 | over distinct objects, after the first callback the rest are still untouched, in their slots and their entries |
| RetainedSizeAndHeldObjects.CountAllTotal | src/sizes/retained_size_and_held_objects.cpp:76-78 | over distinct objects the accumulated size is what each object's tag on the heap before the iteration retains |
| RetainedSizeAndHeldObjects.CountAllRetags | src/sizes/retained_size_and_held_objects.cpp:13-23 | afterwards each counted object holds `HeldObjectTag` exactly when its tag had a retained entry, and is untagged otherwise |
| RetainedSizeAndHeldObjects.CountAllKeeps | src/sizes/retained_size_and_held_objects.cpp:77-78 | objects the iteration is not given keep their slots |
| RetainedSizeAndHeldObjects.HeldObjects | src/sizes/retained_size_and_held_objects.cpp:87 | the collected objects are exactly the reported objects whose slot holds `HeldObjectTag` |
| RetainedSizeAndHeldObjects.SetStartTag | src/sizes/retained_size_and_held_objects.cpp:67-68 | the object gets a fresh tag, new to the store, holding one start entry of query 0; no other slot changes |
| RetainedSizeAndHeldObjects.StartTagShape | src/sizes/retained_size_and_held_objects.cpp:37 | that entry has index 0, is a start object and in its subtree, and is neither reachable from outside nor visited, so it counts as retained |
| RetainedSizeAndHeldObjects.RetagStartObject | src/sizes/retained_size_and_held_objects.cpp:31-42 | only an object still holding `TagWithNewInfo` is changed, and it then holds a fresh start tag of query 0 |
| RetainedSizeAndHeldObjects.TagHeapForObject | src/sizes/retained_size_and_held_objects.cpp:44-64 | the phases keep the heap valid; any stop answer gives the timeout, and a timeout comes only from a stop or a passed deadline |
| RetainedSizeAndHeldObjects.CountAllHeld | src/sizes/retained_size_and_held_objects.cpp:77-87 | after counting distinct objects, the held objects are exactly the reported objects whose tag had a retained entry |
| RetainedSizeAndHeldObjects.CountAndCollect | src/sizes/retained_size_and_held_objects.cpp:76-87 | the retained size is set; the stop after counting gives the timeout and then no held objects, and no stop gives no error |
| RetainedSizeAndHeldObjects.CountAndCollectResult | src/sizes/retained_size_and_held_objects.cpp:76-87 | without a stop the retained size is what the query retains on the tagged heap, non-negative for non-negative sizes, and the held objects are those whose tag had a retained entry |
| RetainedSizeAndHeldObjects.EstimateObjectSize | src/sizes/retained_size_and_held_objects.cpp:66-88 | the error is none or the timeout; after an error there are no held objects; the retained size is unset only after an error, as a stop before line 76 leaves it unassigned |
| RetainedSizeAndHeldObjects.Tagged | src/sizes/retained_size_and_held_objects.cpp:67-74 | the heap after the start tag and `tagHeap` is valid with the same objects |
| RetainedSizeAndHeldObjects.EstimateObjectSizeErrors | src/sizes/retained_size_and_held_objects.cpp:66-88 | a stop at any phase boundary times out; otherwise only a passed deadline before a walk does |
| RetainedSizeAndHeldObjects.EstimateObjectSizeCounts | src/sizes/retained_size_and_held_objects.cpp:76-87 | a run without error is the counting and collection on the tagged heap without a stop |
| RetainedSizeAndHeldObjects.ExecuteOperation | src/sizes/retained_size_and_held_objects.cpp:90-124 | the result is built even after an error: two sizes, the shallow size first and the (possibly unset) retained size second, and the held objects |
| RetainedSizeAndHeldObjects.CountSizeAndRetag | src/sizes/retained_size_and_held_objects.cpp:8-25 | the callback in place leaves the heap `CountObject` gives and adds the object's retained contribution |
| RetainedSizeAndHeldObjects.CountEntries | src/sizes/retained_size_and_held_objects.cpp:15-21 | the loop over the entries adds `RetainedSize` and leaves `HeldTag` in the slot |
| RetainedSizeAndHeldObjects.CountAllInPlace | src/sizes/retained_size_and_held_objects.cpp:76-78 | the iteration in place gives the heap and the size `CountAll` gives |
| RetainedSizeAndHeldObjects.CollectHeld | src/sizes/retained_size_and_held_objects.cpp:87 | the scan returns exactly `HeldObjects` |
| RetainedSizeAndHeldObjects.EstimateObjectSizeInPlace | src/sizes/retained_size_and_held_objects.cpp:66-88 | the whole estimate in place gives the state, error, retained size and held objects `EstimateObjectSize` gives |
| RetainedSizeAndHeldObjects.TagHeapForObjectInPlace | src/sizes/retained_size_and_held_objects.cpp:44-64 | the phases in place end in the state and with the error `TagHeapForObject` gives |
| RetainedSizeByObjectsMerged.MarkVisit | src/sizes/retained_size_by_objects_merged.cpp:10-35 | a callback follows the referee exactly when it marks it: the reference is not a JNI local or global one and the referee does not hold the mark the traversal keeps; otherwise it returns 0 and leaves the tag |
| RetainedSizeByObjectsMerged.Follow | src/sizes/retained_size_by_objects_merged.cpp:48 | a traversal changes tag values only, never the set of objects |
| RetainedSizeByObjectsMerged.FollowMarks | src/sizes/retained_size_by_objects_merged.cpp:10-35 | after a traversal an object with the kept mark keeps it, every other object reached by a non-JNI reference holds the traversal's mark, and every other slot is unchanged |
| RetainedSizeByObjectsMerged.TagStarts | src/sizes/retained_size_by_objects_merged.cpp:42-46 | the tagging loop changes tag values only |
| RetainedSizeByObjectsMerged.TagStartsMarks | src/sizes/retained_size_by_objects_merged.cpp:42-46 | the loop runs to the end exactly when no stop answer is yes, and then every query object holds START and every other slot is unchanged |
| RetainedSizeByObjectsMerged.FollowFromStarts | src/sizes/retained_size_by_objects_merged.cpp:51-59 | the second traversals change tag values only |
| RetainedSizeByObjectsMerged.FollowFromStartsMarks | src/sizes/retained_size_by_objects_merged.cpp:51-59 | the loop runs to the end exactly when no stop answer is yes, and then a VISITED object keeps its mark, every other object some walk reaches holds START, and the rest are unchanged |
| RetainedSizeByObjectsMerged.StartSize | src/sizes/retained_size_by_objects_merged.cpp:61-74 | the total size of the START objects is non-negative when every size is |
| RetainedSizeByObjectsMerged.StartSizeBounds | src/sizes/retained_size_by_objects_merged.cpp:67-72 | with non-negative sizes the total is at most the heap's size, at least any single START object's size, and 0 without START objects |
| RetainedSizeByObjectsMerged.EstimateObjectsSize | src/sizes/retained_size_by_objects_merged.cpp:76-86 | the estimate changes tag values only |
| RetainedSizeByObjectsMerged.EstimateObjectsSizeErrors | src/sizes/retained_size_by_objects_merged.cpp:76-86 | the estimate succeeds exactly when no stop answer is yes and is interrupted otherwise; the retained size is unassigned only after an interruption |
| RetainedSizeByObjectsMerged.EstimateObjectsSizeMarks | src/sizes/retained_size_by_objects_merged.cpp:41-86 | on a heap without marks a successful estimate leaves START exactly on the query objects and on the objects a walk from them reaches that the traversal from the roots did not, and the result is those objects' total size |
| RetainedSizeByObjectsMerged.ExecuteOperation | src/sizes/retained_size_by_objects_merged.cpp:88-100 | the answer is a one-element array holding the retained size, whatever the error |
| RetainedSizeByObjectsMerged.CleanHeap | src/sizes/retained_size_by_objects_merged.cpp:102-104 | every object is untagged afterwards, none added or lost |
| RetainedSizeByObjectsMerged.MergedAction.constructor | src/sizes/retained_size_by_objects_merged.cpp:37-39 | the action starts on the given tags |
| RetainedSizeByObjectsMerged.MergedAction.Travers | src/sizes/retained_size_by_objects_merged.cpp:10-35 | one callback in place sets the referee's tag as `MarkTag` says and returns `MarkVisit` |
| RetainedSizeByObjectsMerged.MergedAction.FollowReferences | src/sizes/retained_size_by_objects_merged.cpp:48 | the traversal in place leaves the tags `Follow` gives |
| RetainedSizeByObjectsMerged.MergedAction.TagObjects | src/sizes/retained_size_by_objects_merged.cpp:42-46 | the tagging loop in place gives the tags and stop of `TagStarts` |
| RetainedSizeByObjectsMerged.MergedAction.TraverseFromStarts | src/sizes/retained_size_by_objects_merged.cpp:51-59 | the second traversals in place give the tags and stop of `FollowFromStarts` |
| RetainedSizeByObjectsMerged.MergedAction.CountRetainedSize | src/sizes/retained_size_by_objects_merged.cpp:61-74 | a stop gives the interruption with the size already reset to 0; otherwise no error and the total size of the START objects |
| RetainedSizeByObjectsMerged.MergedAction.EstimateObjectsSizeInPlace | src/sizes/retained_size_by_objects_merged.cpp:76-86 | the whole estimate in place gives the tags, error and retained size `EstimateObjectsSize` gives |
| RetainedSizeByObjectsMerged.MergedAction.RemoveAllTags | src/sizes/retained_size_by_objects_merged.cpp:102-104 | the tags afterwards are those `CleanHeap` gives |
| ShallowSizeByClasses.TagClasses | src/sizes/shallow_size_by_classes.cpp:17-23 | tagging changes tag values only |
| ShallowSizeByClasses.LastIndex | src/sizes/shallow_size_by_classes.cpp:18-20 | the position found holds the class and no later position does |
| ShallowSizeByClasses.TagClassesLastWins | src/sizes/shallow_size_by_classes.cpp:17-23 | afterwards a listed class carries one more than its last position, the later index winning for a class listed twice, and every other object keeps its tag |
| ShallowSizeByClasses.ShallowOf | src/sizes/shallow_size_by_classes.cpp:6-11 | the size collected for one class tag is non-negative when every size is |
| ShallowSizeByClasses.ShallowOfListed | src/sizes/shallow_size_by_classes.cpp:6-11 | on a heap without tags, the size collected for tag `i + 1` is the total size of the instances of exactly `classes[i]` (not of its subclasses) when `i` is the class's last position, and 0 otherwise |
| ShallowSizeByClasses.ExecuteOperation | src/sizes/shallow_size_by_classes.cpp:25-37 | a stop after tagging gives an empty array; otherwise there is one slot per listed class |
| ShallowSizeByClasses.ExecuteOperationSizes | src/sizes/shallow_size_by_classes.cpp:25-37 | on a heap without tags and without a stop, slot `i` holds the total size of the class's own instances, except that an earlier position of a class listed twice holds 0 |
| ShallowSizeByClasses.TaggedBelow | src/sizes/shallow_size_by_classes.cpp:20 | tagging a heap without tags leaves every tag between 0 and the number of classes, so `classTag - 1` always names a slot |
| ShallowSizeByClasses.CalculateShallowSize | src/sizes/shallow_size_by_classes.cpp:6-11 | an instance of a tagged class adds its size to slot `classTag - 1` and changes nothing else; an untagged class changes nothing; the callback always returns `JVMTI_VISIT_OBJECTS` |
| ShallowSizeByClasses.IterateThroughHeap | src/sizes/shallow_size_by_classes.cpp:34 | every slot gains the size of the instances of the class with its tag |
| ShallowSizeByClasses.ShallowSizeByClassesAction.constructor | src/sizes/shallow_size_by_classes.cpp:13-15 | the action starts on the given tags |
| ShallowSizeByClasses.ShallowSizeByClassesAction.TagClassesInPlace | src/sizes/shallow_size_by_classes.cpp:17-23 | the loop in place leaves the tags `TagClasses` gives |
| ShallowSizeByClasses.ShallowSizeByClassesAction.ExecuteOperationInPlace | src/sizes/shallow_size_by_classes.cpp:25-37 | the operation over a zeroed array leaves the tagged classes and returns what `ExecuteOperation` gives |
| SizeByClasses.UntagClasses | src/size_by_classes.cpp:15-21 | untagging changes tag values only |
| SizeByClasses.UntagClassesZeroes | src/size_by_classes.cpp:15-21 | with `setTagToZero` exactly the listed classes are untagged, every other tag kept |
| SizeByClasses.GetSizes | src/size_by_classes.cpp:23-42 | the result has one slot per listed class and no object is added or lost |
| SizeByClasses.GetSizesResult | src/size_by_classes.cpp:23-42 | on a heap without tags slot `i` holds the total size of the class's own instances (0 at an earlier position of a class listed twice), and afterwards the heap is without tags again |
| SizeByClasses.SizeQuery.constructor | src/size_by_classes.cpp:23 | the query starts on the given tags |
| SizeByClasses.SizeQuery.TagClassesInPlace | src/size_by_classes.cpp:15-21 | the loop in place gives class `i` the tag `i + 1`, or untags every listed class with `setTagToZero` |
| SizeByClasses.SizeQuery.GetSizesInPlace | src/size_by_classes.cpp:23-42 | the query in place returns the sizes and leaves the tags `GetSizes` gives |
| ObectSize.CreateTag | src/obect_size.cpp:24-31 | a new tag with the given flags goes to a fresh address, the balance grows by one and no slot changes |
| ObectSize.ReferenceKeepsValid | src/obect_size.cpp:52-118 | every reference the callback sees keeps every tagged slot pointing at a live tag and every address below the next fresh one |
| ObectSize.ReferenceFlags | src/obect_size.cpp:61-115 | after a reference that is not ignored the referee is tagged; it is reachable from outside exactly when it was or the referrer passes that on (a heap root, an untagged or a reachable-outside referrer) and it is not the start object; it is in the subtree exactly when it was or the referrer is; its start flag is kept |
| ObectSize.ReferenceKeepsStart | src/obect_size.cpp:70-72 | no reference makes the start object reachable from outside, moves its tag or adds another start tag |
| ObectSize.SelfReferenceLeaksTag | src/obect_size.cpp:103-114 | as written, one reference of an untagged object to itself counts two tags while only one slot holds a tag: the referee's new tag is overwritten by the referrer's |
| ObectSize.CreateTagKeepsAttached | src/obect_size.cpp:24-31 | tagging an untagged object with a new tag keeps every tag attached to exactly one slot and the balance equal to the number of tags |
| ObectSize.FlagChangeKeepsAttached | src/obect_size.cpp:68-72 | changing flags of existing tags keeps them attached |
| ObectSize.UntaggedReferrerFirst | src/obect_size.cpp:101-115 | for two distinct objects, storing the referrer's new tag before handling the referee gives the same heap as the source's order |
| ObectSize.UntaggedReferrerKeepsAttached | src/obect_size.cpp:101-115 | a reference from an untagged referrer to another object keeps every tag attached |
| ObectSize.TaggedReferrerKeepsAttached | src/obect_size.cpp:79-100 | a reference from a tagged referrer keeps every tag attached |
| ObectSize.CorrectedKeepsAttached | src/obect_size.cpp:52-118 | with the self-reference corrected, every reference keeps every tag attached to exactly one object and the balance equal to the number of tags |
| ObectSize.CorrectedKeepsStart | src/obect_size.cpp:52-118 | the corrected callback never makes the start object reachable from outside or moves its tag |
| ObectSize.TaggedReferrerKeepsListed | src/obect_size.cpp:87-100 | after a reference from a tagged referrer the `tags` vector still lists exactly the tags in the subtree |
| ObectSize.UntaggedReferrerKeepsListed | src/obect_size.cpp:101-115 | after a reference from an untagged referrer the same holds |
| ObectSize.CorrectedKeepsListed | src/obect_size.cpp:52-118 | every corrected callback keeps the `tags` vector exactly the subtree's tags |
| ObectSize.CorrectedKeepsValid | src/obect_size.cpp:52-118 | every corrected callback keeps the heap valid and never moves the next fresh address back |
| ObectSize.Follow | src/obect_size.cpp:130 | the traversal with the corrected callback `CorrectedReference` keeps the heap valid |
| ObectSize.FollowLast | src/obect_size.cpp:130 | one more reported reference is one more callback |
| ObectSize.FollowKeepsStart | src/obect_size.cpp:130 | the whole traversal keeps the start object's tag, not reachable from outside and the only start tag |
| ObectSize.FollowKeepsListed | src/obect_size.cpp:130 | the whole traversal keeps the `tags` vector exactly the subtree's tags |
| ObectSize.FollowKeepsAttached | src/obect_size.cpp:130 | the whole traversal with the corrected callback keeps every tag attached; as written, an untagged self-reference detaches a tag (`SelfReferenceLeaksTag`) |
| ObectSize.CorrectedTagsEndpoints | src/obect_size.cpp:52-118 | a callback tags no object but the referrer and the referee |
| ObectSize.FollowStaysWithin | src/obect_size.cpp:130 | when every reference is between objects of the heap, only objects of the heap get tagged |
| ObectSize.CleanupStepKeepsAttached | src/obect_size.cpp:35-44 | deleting one object's tag keeps the rest attached and untags it |
| ObectSize.CleanupUntags | src/obect_size.cpp:46-50 | after the cleanup no object of the heap is tagged and the remaining tags are still attached |
| ObectSize.CleanupBalancesTags | src/obect_size.cpp:46-50 | when every tag is attached to an object of the heap the cleanup deletes all tags, leaving the balance 0 |
| ObectSize.StartTagged | src/obect_size.cpp:126-128 | tagging the start object keeps the heap valid |
| ObectSize.Found | src/obect_size.cpp:133 | `GetObjectsWithTags` finds exactly the objects whose tag is listed in `tags` |
| ObectSize.FoundIsSubtree | src/obect_size.cpp:133-147 | summing the found objects not reachable from outside sums the objects of the subtree not reachable from outside |
| ObectSize.FollowedStart | src/obect_size.cpp:126-130 | from a heap without tags, the start object ends in the subtree, not reachable from outside and the only start object, and `tags` lists exactly the subtree |
| ObectSize.EstimateIsRetainedSubtree | src/obect_size.cpp:120-147 | the computed retained size is the total size of the subtree objects not reachable from outside, and it counts the start object |
| ObectSize.StartCounted | src/obect_size.cpp:138-147 | a start object in the subtree and not reachable from outside adds its size to the sum |
| ObectSize.EstimateBalancesTags | src/obect_size.cpp:153-157 | with the corrected callback and references between heap objects, the cleanup leaves no tag and the balance 0, so the balance check stays silent |
| ObectSize.SizesAgent.constructor | src/obect_size.cpp:10 | the agent starts on a heap without tags and with balance 0 |
| ObectSize.SizesAgent.NewTag | src/obect_size.cpp:24-31 | a new tag at a fresh address, counted in the balance, no slot changed |
| ObectSize.SizesAgent.MarkOutsideTag | src/obect_size.cpp:68-72 | the tag becomes reachable from outside unless it is the start tag |
| ObectSize.SizesAgent.CbHeapReference | src/obect_size.cpp:52-118 | the callback in place always lets the traversal go on and leaves the state and the `tags` vector `CorrectedReference` gives |
| ObectSize.SizesAgent.CleanHeapForSizes | src/obect_size.cpp:35-50 | the cleanup in place leaves the state `Cleanup` gives |
| ObectSize.SizesAgent.FollowReferences | src/obect_size.cpp:130 | the traversal in place, with the corrected callback, leaves the state and the `tags` vector `Follow` gives |
| ObectSize.SizesAgent.SumRetained | src/obect_size.cpp:135-147 | the loop adds up exactly the sizes of the found objects not reachable from outside |
| ObectSize.SizesAgent.EstimateObjectSize | src/obect_size.cpp:120-159 | with the corrected callback, the result is the sum of the retained subtree's sizes cast to `jint`, and afterwards the heap is as `Cleanup` leaves it |
| ObjectsSize.CreateState | src/objects_size.cpp:45-58 | the state has exactly the three flags asked for and no other bit |
| ObjectsSize.StateRoundTrip | src/objects_size.cpp:33-58 | a three-bit state is rebuilt exactly from its three flags |
| ObjectsSize.DefaultState | src/objects_size.cpp:64-66 | the default state has no flag and is not retained |
| ObjectsSize.UpdateState | src/objects_size.cpp:68-74 | the start flag is kept, "in the subtree" comes from either state, and "reachable from outside" from the current state or from a referrer that is reachable from outside and not a start object |
| ObjectsSize.UpdateIdempotent | src/objects_size.cpp:68-74 | updating twice from the same referrer state changes nothing more |
| ObjectsSize.UpdateFromItself | src/objects_size.cpp:68-74 | a state updated from itself is unchanged |
| ObjectsSize.StartStaysRetained | src/objects_size.cpp:60-74 | a start object stays a start object and retained whatever its referrers |
| ObjectsSize.MarkStart | src/objects_size.cpp:91-93 | the marked state is start and in the subtree, not reachable from outside, hence retained, and its other bits are kept |
| ObjectsSize.MergeKeys | src/objects_size.cpp:107-119 | after a reference the referee holds the ids of both tags |
| ObjectsSize.MergeMarksUnshared | src/objects_size.cpp:107-111 | an id the referee has and the referrer lacks becomes reachable from outside, its other flags kept |
| ObjectsSize.MergeSpreadsReferrer | src/objects_size.cpp:114-119 | every referrer id spreads to the referee: the start flag stays the referee's own, "in the subtree" comes from either, and "reachable from outside" from the referee's entry (or `alreadyVisited` when it had none) or a non-start outside referrer |
| ObjectsSize.EnsureTagged | src/objects_size.cpp:83-86 | an untagged referee gets a fresh record with no states and no class, counted in the balance; a tagged one keeps its record; nothing else changes |
| ObjectsSize.VisitReferenceKeepsValid | src/objects_size.cpp:79-123 | every callback keeps the heap valid and leaves the referee tagged |
| ObjectsSize.UntaggedReferrerAborts | src/objects_size.cpp:98-103 | the traversal aborts exactly for a non-root reference from an untagged referrer other than the referee itself, and the callback otherwise always follows |
| ObjectsSize.TrackedInstanceIsStart | src/objects_size.cpp:88-95 | an instance of a tracked class ends the callback as a start object of its class id, so it is retained for that id |
| ObjectsSize.VisitReferenceMerges | src/objects_size.cpp:105-119 | a reference from another, tagged object whose referee's class is untagged leaves the referee with the merge of the two tags' states |
| ObjectsSize.AddRetained | src/objects_size.cpp:129-133 | adding a visited object's size keeps one slot per result entry |
| ObjectsSize.Int8 | src/objects_size.cpp:17 | storing a `uint8_t` id in the `int8_t` field keeps ids below 128 and wraps the others to negative values |
| ObjectsSize.MarkClassLosesHighIds | src/objects_size.cpp:191-200 | as written, id 255 is stored as the "no class" value -1 and id 128 as -128 |
| ObjectsSize.ObjectsSizeAgent.constructor | src/objects_size.cpp:8 | the agent starts with no records and balance 0 |
| ObjectsSize.ObjectsSizeAgent.CreateTag | src/objects_size.cpp:19-22 | a fresh record with no states and no class at a new address, counted in the balance |
| ObjectsSize.ObjectsSizeAgent.MarkClass | src/objects_size.cpp:191-200 | the class object's record, created when missing, holds the index as given; a new record is counted in the balance |
| ObjectsSize.ObjectsSizeAgent.VisitReference | src/objects_size.cpp:79-123 | the callback in place gives the records and the answer `ReferenceVisit` gives |
| ObjectsSize.ObjectsSizeAgent.VisitObject | src/objects_size.cpp:127-138 | the object's size is added to `result[id]` for every retained id, its record is deleted, its slot cleared and the balance drops by one; the iteration goes on |
| ObjectsSize.MarkUnshared | src/objects_size.cpp:107-111 | the first loop yields exactly the referee states `Unshared` describes, whatever the order of the map iteration |
| ObjectsSize.SpreadReferrer | src/objects_size.cpp:114-119 | the second loop yields exactly the states `Spread` describes, whatever the order |
| ObjectsSize.AddSizes | src/objects_size.cpp:129-133 | the loop adds the size to the slot of every retained id |
| ObjectsOfClassInHeap.FindStepFrame | src/reachability/objects_of_class_in_heap.cpp:12-38 | the callback changes no tag but the referee's |
| ObjectsOfClassInHeap.ClassTagsKept | src/reachability/objects_of_class_in_heap.cpp:15-16 | a class object tagged CLASS_TAG or REFERENCE_CLASS_TAG keeps its tag and is followed |
| ObjectsOfClassInHeap.ReferenceInstancesWeak | src/reachability/objects_of_class_in_heap.cpp:17-18 | an instance of a Reference class is tagged weak/soft-reachable and followed |
| ObjectsOfClassInHeap.WeakIffWeakReferrer | src/reachability/objects_of_class_in_heap.cpp:19-29 | apart from class objects and Reference instances, a reached object is weak exactly when its referrer is weak and the object was untagged or weak, and a strongly reachable object never becomes weak again |
| ObjectsOfClassInHeap.ObjectOfClassFound | src/reachability/objects_of_class_in_heap.cpp:31-37 | an object becomes object-of-class exactly when it is a strongly reached instance of a CLASS_TAG class; the traversal aborts exactly when that happens and only the first object is wanted, and otherwise goes on |
| ObjectsOfClassInHeap.FindStepKeepsInstances | src/reachability/objects_of_class_in_heap.cpp:31-32 | every object tagged object-of-class stays an instance of a CLASS_TAG class |
| ObjectsOfClassInHeap.Traverse | src/reachability/objects_of_class_in_heap.cpp:62 | the traversal stops at the first abort and sees at most the reported references |
| ObjectsOfClassInHeap.ObjectsOfClass | src/reachability/objects_of_class_in_heap.cpp:65 | the result holds exactly the objects tagged object-of-class |
| ObjectsOfClassInHeap.FindFirstFindsAtMostOne | src/reachability/objects_of_class_in_heap.cpp:33-35 | when only the first object is wanted, at most one object is tagged object-of-class |
| ObjectsOfClassInHeap.TagClassesTagsAssignable | src/reachability/objects_of_class_in_heap.cpp:52-57 | every loaded class assignable to the target is tagged CLASS_TAG and every other object keeps its tag |
| ObjectsOfClassInHeap.FirstFound | src/reachability/objects_of_class_in_heap.cpp:72-77 | the first-object query returns nothing exactly when nothing was found, and otherwise the first found object |
| ObjectsOfClassInHeap.ObjectsOfClassQuery.constructor | src/reachability/objects_of_class_in_heap.cpp:68-70 | the query starts on the given tags |
| ObjectsOfClassInHeap.ObjectsOfClassQuery.TagAssignableClasses | src/reachability/objects_of_class_in_heap.cpp:52-57 | the loop in place leaves the tags `TagClasses` gives |
| ObjectsOfClassInHeap.ObjectsOfClassQuery.FindReachableObjectsOfClass | src/reachability/objects_of_class_in_heap.cpp:12-38 | the callback in place gives the tags and answer `FindStep` gives |
| ObjectsOfClassInHeap.ObjectsOfClassQuery.FollowReferences | src/reachability/objects_of_class_in_heap.cpp:62 | the traversal in place gives the tags and the number of references seen that `Traverse` gives |
| ObjectsOfClassInHeap.ObjectsOfClassQuery.GetReachableObjectsOfClass | src/reachability/objects_of_class_in_heap.cpp:41-66 | the Reference classes are tagged REFERENCE_CLASS_TAG first, then the assignable classes CLASS_TAG (`ClassesTagged`); after the traversal the result is exactly the object-of-class objects of the heap, in heap order |
| ObjectsOfClassInHeap.ObjectsOfClassQuery.SetTagsForReferences | src/roots/paths_to_closest_gc_roots.cpp:289-316 | the loop in place tags every loaded class assignable to a Reference class with REFERENCE_CLASS_TAG, as `TagReferenceClasses` does with that tag |
| ObjectsOfClassInHeap.ClassesTaggedTags | src/reachability/objects_of_class_in_heap.cpp:42-57 | before the traversal, a loaded class assignable to the target holds CLASS_TAG (the later loop wins over the Reference tag), any other loaded Reference class holds REFERENCE_CLASS_TAG, and every other object keeps its tag |
| PathsResult.TagToIndexLast | src/roots/paths_to_closest_gc_roots.cpp:75-82 | each tag of the object list maps to the last position holding it, and no other tag is mapped |
| PathsResult.GetTagToIndex | src/roots/paths_to_closest_gc_roots.cpp:75-82 | the loop builds exactly the last-position map |
| PathsResult.Kept | src/roots/paths_to_closest_gc_roots.cpp:48-53 | a back-reference is kept exactly when it is a root record (-1) or its referrer is in the result |
| PathsResult.LinksDescribeKept | src/roots/paths_to_closest_gc_roots.cpp:48-57 | the index, kind and info arrays are equally long and describe the kept back-references position by position, roots as -1 |
| PathsResult.CreateLinksInfos | src/roots/paths_to_closest_gc_roots.cpp:37-65 | the loop builds the link arrays of the specification |
| PathsResult.LinksIndicesValid | src/roots/paths_to_closest_gc_roots.cpp:48-57 | every emitted index is -1 exactly for a root record, and otherwise the position of a result object holding the referrer's tag |
| PathsResult.CreateResultObject | src/roots/paths_to_closest_gc_roots.cpp:84-110 | one entry per returned object: the object, its links from the chosen records, and its tag's weak/soft-reachable flag; that is the answer ResultObject describes |
| PathsResult.StartAnswerObjects | src/roots/paths_to_closest_gc_roots.cpp:112-114 | the answer for start alone lists only objects of the heap tagged start, one entry each |
| PathsResult.PathAnswerObjects | src/roots/paths_to_closest_gc_roots.cpp:127-146 | the answer for assembled paths lists only objects whose tag is one of the nodes |
| PathsResult.PathAnswerOrdered | src/roots/paths_to_closest_gc_roots.cpp:137-143 | the answer for assembled paths lists its objects in nondecreasing order of their tags' path numbers |
| PathsResult.BackRefsOf | src/roots/paths_to_closest_gc_roots.cpp:97-98 | the records read for each live tag are its back-references |
| PathsResult.RequestedTagsAsWritten | src/roots/paths_to_closest_gc_roots.cpp:130-134 | the request as written is twice as long as the node list |
| PathsResult.NodeTags | src/roots/paths_to_closest_gc_roots.cpp:131-132 | the intended request lists the node tags in order |
| PathsResult.RequestHasZeroTags | src/roots/paths_to_closest_gc_roots.cpp:130-132 | with any node, the request as written starts with as many zero tags as there are nodes, followed by the node tags |
| PathsResult.RequestedTagsAreNodes | src/roots/paths_to_closest_gc_roots.cpp:131-132 | the corrected request holds exactly the node tags |
| PathsResult.TagToPathNumber | src/roots/paths_to_closest_gc_roots.cpp:133 | each node tag maps to the path number of a node carrying it, and only node tags are mapped |
| PathsResult.Insert | src/roots/paths_to_closest_gc_roots.cpp:137-143 | insertion keeps the order by path number and adds exactly one element |
| PathsResult.SortByPath | src/roots/paths_to_closest_gc_roots.cpp:137-143 | the sort returns a permutation of the objects ordered by path number |
| PathsResult.TaggedAmong | src/roots/paths_to_closest_gc_roots.cpp:67-73 | exactly the heap objects whose tag is requested, each with its tag |
| PathsResult.ObjectsWithTags | src/roots/paths_to_closest_gc_roots.cpp:67-70 | a request holding the tag 0 is refused; otherwise exactly the objects with a requested tag are returned |
| PathsResult.GetObjectToTag | src/roots/paths_to_closest_gc_roots.cpp:67-73 | a refused request leaves the list empty; otherwise it holds exactly the objects with a requested tag |
| PathsResult.RequestAsWrittenFindsNothing | src/roots/paths_to_closest_gc_roots.cpp:127-136 | with the request as written, a non-empty node list is always refused and no object is found |
| PathsResult.NodeRequestFindsNodes | src/roots/paths_to_closest_gc_roots.cpp:127-136 | with the node tags alone and no zero tag, the request succeeds and finds exactly the objects tagged as a node |
| PathsResult.GetSortedObjectToTag | src/roots/paths_to_closest_gc_roots.cpp:127-146 | corrected: the request holds the node tags alone, without the source's `nodes.size()` leading zeros; the loop collects the node tags and path numbers, and the result is the found objects sorted by path number |
| PathsResult.PrevIndicesInRange | src/roots/paths_to_closest_gc_roots.cpp:54 | indices below n in the map keep every link index between -1 and n |
| PathsResult.ResultWellLinked | src/roots/paths_to_closest_gc_roots.cpp:84-110 | what createResultObject builds is well linked: every link index is -1 or a position of the result |
| PathsSearch.SizeT | src/roots/paths_to_closest_gc_roots.cpp:214-219 | a jint compared with or subtracted from a size_t is taken modulo 2^64 |
| PathsSearch.IsValidGcRoot | src/roots/paths_to_closest_gc_roots.cpp:242-246 | a valid root is a root record that is neither a JNI global nor a JNI local reference |
| PathsSearch.Chain | src/roots/paths_to_closest_gc_roots.cpp:191-200 | following prevTag from a discovered tag reaches start in exactly its distance's number of steps |
| PathsSearch.Scan | src/roots/paths_to_closest_gc_roots.cpp:267-279 | one scan of a tag's back-references records the tag as a root at most once, queues each undiscovered referrer one step farther, and stops at number roots |
| PathsSearch.ExtendsRoot | src/roots/paths_to_closest_gc_roots.cpp:269-271 | recording a new valid root keeps the scan's invariant |
| PathsSearch.ExtendsDiscover | src/roots/paths_to_closest_gc_roots.cpp:272-273 | discovering a new referrer keeps the scan's invariant |
| PathsSearch.RootStep | src/roots/paths_to_closest_gc_roots.cpp:269-271 | recording a root no nearer than the earlier ones keeps the roots ordered by distance |
| PathsSearch.DiscoverStep | src/roots/paths_to_closest_gc_roots.cpp:272-273 | a referrer discovered from a discovered tag, one step farther, keeps the breadth-first tree |
| PathsSearch.AfterScan | src/roots/paths_to_closest_gc_roots.cpp:262-279 | one step keeps the queue ordered by distance and does not grow what is left undiscovered |
| PathsSearch.BeforeScan | src/roots/paths_to_closest_gc_roots.cpp:265-266 | the queue front is discovered and no farther than any other queued tag |
| PathsSearch.StopAnswer | src/roots/paths_to_closest_gc_roots.cpp:263 | a check answers stop only among the answers given |
| PathsSearch.SearchStart | src/roots/paths_to_closest_gc_roots.cpp:259-261 | the search starts from start alone at distance 0 with no root |
| PathsSearch.SearchStep | src/roots/paths_to_closest_gc_roots.cpp:262-279 | one outer step keeps the tree and roots, and shrinks the undiscovered part or the queue |
| PathsSearch.CollectRoots | src/roots/paths_to_closest_gc_roots.cpp:253-280 | the search stops exactly at the first check that says stop; otherwise it returns a breadth-first tree of discovered tags and at most number valid roots in nondecreasing distance |
| PathsSearch.FirstReferrerFinds | src/roots/paths_to_closest_gc_roots.cpp:116-125 | the lookup finds the first back-reference from the referrer, and finds none exactly when no record has that referrer |
| PathsSearch.GetReferrerInfo | src/roots/paths_to_closest_gc_roots.cpp:116-125 | the loop returns the first record from the referrer |
| PathsSearch.RootRecords | src/roots/paths_to_closest_gc_roots.cpp:159-163 | exactly the root records, in order |
| PathsSearch.InsertRootInfos | src/roots/paths_to_closest_gc_roots.cpp:148-164 | the referee's collected records are extended with its root records, created if missing |
| PathsSearch.InsertInfos | src/roots/paths_to_closest_gc_roots.cpp:166-177 | the referee's records are extended with the referrer's record; the answer says whether records existed before |
| PathsSearch.TruncateRecord | src/roots/paths_to_closest_gc_roots.cpp:179-181 | the TRUNCATE record names the cut node and carries the length to start |
| PathsSearch.TruncatePath | src/roots/paths_to_closest_gc_roots.cpp:191-202 | the loop counts exactly the node's distance to start, and start's records get the TRUNCATE record with that index |
| PathsSearch.InfosAppend | src/roots/paths_to_closest_gc_roots.cpp:166-189 | appending records allowed for a discovered tag keeps every collected record allowed |
| PathsSearch.ChainDistinct | src/roots/paths_to_closest_gc_roots.cpp:191-200 | a prevTag chain from a discovered tag visits no tag twice |
| PathsSearch.ReferrerRecordIn | src/roots/paths_to_closest_gc_roots.cpp:116-125 | the record looked up for a step is one of the referee's back-references |
| PathsSearch.WalkFromIsWalk | src/roots/paths_to_closest_gc_roots.cpp:218-235 | the inner loop's walk from a tag is the walk along its prevTag chain to start, appending each step's referrer record |
| PathsSearch.WalkStops | src/roots/paths_to_closest_gc_roots.cpp:218-235 | a walk along a chain of distinct tags steps only to tags without records and stops at the limit, at the chain's end, or before a tag with records |
| PathsSearch.WalkNodes | src/roots/paths_to_closest_gc_roots.cpp:219-233 | the walk appends exactly the tags it steps to, numbered cnt, then start numbered 1 when it is cut at the limit on the first path |
| PathsSearch.WalkNodesIn | src/roots/paths_to_closest_gc_roots.cpp:219-233 | the walk only appends: tags of its chain numbered cnt, or start numbered 1 on the first path |
| PathsSearch.WalkTruncates | src/roots/paths_to_closest_gc_roots.cpp:219-225 | a walk cut at the limit ends start's records with the TRUNCATE record of the tag reached and its remaining length to start |
| PathsSearch.WalkFromInChain | src/roots/paths_to_closest_gc_roots.cpp:218-235 | the walk from a tag only appends tags of its prevTag chain, numbered cnt, or start numbered 1 |
| PathsSearch.WalkFromStops | src/roots/paths_to_closest_gc_roots.cpp:228-231 | the walk from a tag steps only to tags without records; below the limit it stops at start or before a tag that has records |
| PathsSearch.WalkFromNodes | src/roots/paths_to_closest_gc_roots.cpp:219-233 | the nodes the walk from a tag adds are the tags it steps to, numbered cnt, then start numbered 1 when cut at the limit on the first path |
| PathsSearch.WalkFromTruncates | src/roots/paths_to_closest_gc_roots.cpp:219-225 | a walk that reaches the limit ends start's records with a TRUNCATE record for the tag reached, whose index is that tag's distance to start |
| PathsSearch.LimitKeeps | src/roots/paths_to_closest_gc_roots.cpp:219-225 | the limit branch ends the walk with the TRUNCATE record on start, and start as node 1 on the first path |
| PathsSearch.NextEnds | src/roots/paths_to_closest_gc_roots.cpp:228-231 | a step to a tag that already has records appends the referrer record to it and ends the walk |
| PathsSearch.NextGoesOn | src/roots/paths_to_closest_gc_roots.cpp:228-234 | a step to a tag without records creates its records and goes on from it as a node numbered cnt |
| PathsSearch.AssembleFromIsWith | src/roots/paths_to_closest_gc_roots.cpp:214-236 | the outer loop is the fold over the roots of the root step followed by the inner walk |
| PathsSearch.PathWalkAppendsChain | src/roots/paths_to_closest_gc_roots.cpp:218-235 | the inner loop extends the nodes it is given and appends only tags of the chain it walks, numbered as asked |
| PathsSearch.AssembleWithExtends | src/roots/paths_to_closest_gc_roots.cpp:214-236 | the outer loop only appends nodes |
| PathsSearch.WalkOnPath | src/roots/paths_to_closest_gc_roots.cpp:214-235 | a root and its walk keep every node on the path its number names |
| PathsSearch.AssembleWithOnPath | src/roots/paths_to_closest_gc_roots.cpp:214-236 | every assembled node is a root numbered by its position, or lies on the chain of the root one position before its number |
| PathsSearch.AssembleWithRoots | src/roots/paths_to_closest_gc_roots.cpp:214-216 | every root is a node numbered by its position, unless objectsNumber nodes were reached |
| PathsSearch.AssemblePathNumbers | src/roots/paths_to_closest_gc_roots.cpp:208-237 | in the assembled paths every node carries its path number, and every root found is a node numbered by its position unless objectsNumber nodes were reached |
| PathsSearch.AddPath | src/roots/paths_to_closest_gc_roots.cpp:214-235 | one outer iteration keeps the loop on course to the paths Assemble defines, with every node known and every record allowed |
| PathsSearch.WalkToStart | src/roots/paths_to_closest_gc_roots.cpp:218-235 | the inner loop computes exactly the walk WalkFrom defines from the root, following prevTag and stopping at start, at a tag that already has records, or at the limit with the TRUNCATE record; it keeps every node discovered with records and every record allowed, and only appends nodes |
| PathsSearch.AssemblePaths | src/roots/paths_to_closest_gc_roots.cpp:208-237 | the outer loop returns exactly the nodes and records Assemble defines: each root with its root records, then its walk, while fewer than objectsNumber nodes, with the inner limit computed in size_t; every node is discovered with records, every record allowed, and with a root and a positive limit the first node is the first root with path number 0 |
| PathsSearch.SortedTagsHaveInfos | src/roots/paths_to_closest_gc_roots.cpp:238-239 | every object of the sorted list has collected records, so the lookup at line 99 finds them |
| PathsSearch.StartTagsHaveInfos | src/roots/paths_to_closest_gc_roots.cpp:112-114 | every object found for start alone carries start's tag, which has back-references |
| PathsSearch.CollectPathsToClosestGcRoots | src/roots/paths_to_closest_gc_roots.cpp:253-287 | an empty array exactly when a check says stop; otherwise the search gives a breadth-first tree and at most number valid roots, and the answer is PathsAnswer: the start object alone with its own back-references when no root is found, else the assembled paths with their collected records, objects fetched by the corrected node-tag request and sorted by path number; the result is always well linked |
| PathsSearch.LaterStops | src/roots/paths_to_closest_gc_roots.cpp:331-340 | the checks after the first answer as the remaining ones |
| PathsSearch.ExecuteOperation | src/roots/paths_to_closest_gc_roots.cpp:331-340 | the tags are created and the traversal runs on the heap; an empty array exactly when a check says stop; otherwise the answer collectPathsToClosestGcRoots gives (with the corrected node-tag request) from the target's fresh tag on the new heap, always well linked |
| PathsToClosestGcRoots.EmptyHeap | src/roots/roots_tags.h:14 | before the query no object is tagged, no tag is outstanding, and the only tag is the static one, unvisited and weak as its parameter says |
| PathsToClosestGcRoots.CreateTagFor | src/roots/paths_to_closest_gc_roots.cpp:15-17 | a fresh tag is stored as the referee's tag, weak when the referrer's class tag is, adding one to the balance |
| PathsToClosestGcRoots.UpdateTag | src/roots/paths_to_closest_gc_roots.cpp:21-25 | the state update keeps the visited flag and the back-references and makes the tag weak exactly when the referrer is weak and the tag was weak or not yet visited, on every tag including the static one |
| PathsToClosestGcRoots.Reached | src/roots/paths_to_closest_gc_roots.cpp:15-19 | the tag worked on exists in the store |
| PathsToClosestGcRoots.CollectPathsKeepsValid | src/roots/paths_to_closest_gc_roots.cpp:11-35 | the callback keeps the heap well formed |
| PathsToClosestGcRoots.CollectPathsRecordsOne | src/roots/paths_to_closest_gc_roots.cpp:11-35 | each reference appends exactly one back-reference to the referee (the referrer's tag, or -1 for a root) and marks it visited; no other tag changes |
| PathsToClosestGcRoots.CollectPathsWeak | src/roots/paths_to_closest_gc_roots.cpp:20-31 | a root leaves the weak flag alone; otherwise the referee, the static tag of the reference classes included, becomes weak exactly when reached through a weak reference class or a weak referrer and it was weak or not visited |
| PathsToClosestGcRoots.StaticTagTurnsStrong | src/roots/paths_to_closest_gc_roots.cpp:20-25 | a reference to a reference class from an object whose tag is not weak leaves the shared static tag strong, even when it started weak |
| PathsToClosestGcRoots.NewTagWeakFromClass | src/roots/paths_to_closest_gc_roots.cpp:15-17 | a fresh tag is unvisited and weak exactly when the referrer's class tag is |
| PathsToClosestGcRoots.PathsAgent.constructor | src/roots/roots_tags.h:14 | the agent starts on the empty heap, with the static tag's initial weak flag as given |
| PathsToClosestGcRoots.PathsAgent.CollectPathsCallback | src/roots/paths_to_closest_gc_roots.cpp:11-35 | the callback in place performs the specification's update and always answers JVMTI_VISIT_OBJECTS |
| PathsToClosestGcRoots.PathsAgent.FollowReferences | src/roots/paths_to_closest_gc_roots.cpp:325 | the traversal applies the callback to each reported reference in order |
| PathsToClosestGcRoots.PathsAgent.FollowOne | src/roots/paths_to_closest_gc_roots.cpp:325 | one reported reference extends the traversal by one callback |
| PathsToClosestGcRoots.PathsAgent.SetTagsForReferences | src/roots/paths_to_closest_gc_roots.cpp:289-316 | exactly the loaded classes assignable to a reference class get the tag; no tag record changes |
| PathsToClosestGcRoots.PathsAgent.CreateTags | src/roots/paths_to_closest_gc_roots.cpp:318-329 | reference classes get the static weak tag, the target a fresh default tag, which is returned, and the traversal runs on that heap |
| PathsToClosestGcRoots.PathsAgent.TagTarget | src/roots/paths_to_closest_gc_roots.cpp:321-323 | the target gets a fresh default tag |
| PathsToClosestGcRoots.PathsAgent.CleanHeap | src/roots/paths_to_closest_gc_roots.cpp:342-352 | every tag is removed, every destroyed tag but the static weak one costs one balance unit, and the answer says whether the balance is back to 0 |
| PathsToClosestGcRoots.FollowAll | src/roots/paths_to_closest_gc_roots.cpp:325 | the traversal keeps the heap well formed |
| PathsToClosestGcRoots.TagReferenceClassesTags | src/roots/paths_to_closest_gc_roots.cpp:307-315 | exactly the loaded classes assignable to one of the three reference classes get the tag; others keep theirs |
| PathsToClosestGcRoots.ReferenceTagged | src/roots/paths_to_closest_gc_roots.cpp:319 | tagging the reference classes only changes the object tags and keeps the heap well formed |
| PathsToClosestGcRoots.StartTagged | src/roots/paths_to_closest_gc_roots.cpp:321-322 | the target holds a fresh unvisited, not weak tag with no back-references, adding one to the balance |
| HeapDump.NodeBits | src/heap_dump.cpp:16-18 | the node bits of a tag are at most NODE_MASK |
| HeapDump.AddNodeBits | src/heap_dump.cpp:74-78 | adding an id below SHIFT to a tag with clear node bits sets exactly those bits and keeps the class bits |
| HeapDump.TagOrCreate | src/heap_dump.cpp:70-79 | a null slot answers 0; a tag with node bits keeps them; otherwise only that object gets the next index added, keeping its class bits |
| HeapDump.WithClass | src/heap_dump.cpp:98-107 | a class tag of at least SHIFT sets the class id to the tag shifted right by SHIFT_SIZE; a smaller one leaves the class id alone; edges and size are kept |
| HeapDump.Link | src/heap_dump.cpp:95-107 | a non-root reference appends the referee's id to the referrer's edges; the referee's node gets the reported size; no other node changes |
| HeapDump.LinkInRange | src/heap_dump.cpp:95-107 | the node updates keep every id and edge end within the ids handed out |
| HeapDump.DenseAtStart | src/heap_dump.cpp:38 | before the dump there are no ids and no nodes, so the ids are dense |
| HeapDump.CreateDense | src/heap_dump.cpp:74-76 | an object without an id gets the next one, keeping the ids dense |
| HeapDump.CreateDenseOwners | src/heap_dump.cpp:74-76 | after a new id, the k-th owner still has id k + 1 |
| HeapDump.CreateDenseTags | src/heap_dump.cpp:74-76 | after a new id, every tagged object with an id is the owner listed at that id |
| HeapDump.TagOrCreateDense | src/heap_dump.cpp:70-79 | get_tag_or_create keeps the ids dense, hands out at most one new id, and answers a non-zero id exactly for a non-null slot |
| HeapDump.DenseWithNodes | src/heap_dump.cpp:96-103 | dense ids do not depend on node data within their range |
| HeapDump.BothIdsDense | src/heap_dump.cpp:91-92 | the two id lookups keep the ids dense and give the referee a non-zero id |
| HeapDump.BuildGraphStepDense | src/heap_dump.cpp:84-110 | one reference keeps the ids dense and hands out at most two new ids |
| HeapDump.BuildGraphDense | src/heap_dump.cpp:84-110 | the whole traversal keeps the ids dense: each reached object has exactly one id, and the ids are 1..n |
| HeapDump.DumpDense | src/heap_dump.cpp:84-110 | from tags holding class bits only, the dump has dense ids |
| HeapDump.BuildGraphStepEdges | src/heap_dump.cpp:91-107 | the referee's node gets the reported size; a root reference adds no edge; any other reference appends the referee's id to the referrer's edges |
| HeapDump.HeapDumpData.constructor | src/heap_dump.cpp:38 | the data starts with no nodes and index 0 |
| HeapDump.HeapDumpData.GetTagOrCreate | src/heap_dump.cpp:70-79 | the method in place performs the tag update and answer of the specification |
| HeapDump.HeapDumpData.BuildGraphCallback | src/heap_dump.cpp:84-110 | the callback in place performs one step of the graph construction and always answers JVMTI_VISIT_OBJECTS |
| HeapDump.HeapDumpData.FollowReferences | src/heap_dump.cpp:317-318 | the traversal applies the callback to each reported reference in order |
| HeapDump.OccursAt | src/heap_dump.cpp:198-199 | the substring search finds a pattern exactly when some position starts it |
| HeapDump.ShouldSkipClass | src/heap_dump.cpp:197-201 | a class is skipped exactly when its signature contains Ljava/ or Lsun/, or is shorter than five bytes of modified UTF-8 (`std::string::size`) |
| HeapDump.ModifiedUtf8Length | src/heap_dump.cpp:200 | the byte length `std::string::size` gives for a modified UTF-8 signature: between one and six bytes per character |
| HeapDump.AsciiLength | src/heap_dump.cpp:200 | for a signature of ASCII characters other than NUL, the byte length is the character count |
| HeapDump.BytesNotCharacters | src/heap_dump.cpp:200 | the four-character signature "Lää;" is six bytes long and is not skipped |
| HeapDump.AppendedTrans | src/heap_dump.cpp:246-250 | a recursive call that appends a segment extends the caller's segment |
| HeapDump.AppendedFinish | src/heap_dump.cpp:251 | once all successors are marked, the vertex closes its segment |
| HeapDump.Dfs1 | src/heap_dump.cpp:240-252 | dfs1 marks exactly the vertex and the newly reached vertices, appends each of them once after the earlier order, with the vertex itself last, and every successor of an appended vertex ends up marked |
| HeapDump.CountPositive | src/heap_dump.cpp:254-264 | an edge occurs a positive number of times exactly when it is present |
| HeapDump.PushEdge | src/heap_dump.cpp:259 | pushing an edge creates or extends only the target's list |
| HeapDump.PushEdgeCount | src/heap_dump.cpp:259 | pushing u onto w's edges adds one u there and nothing else |
| HeapDump.PushAllCount | src/heap_dump.cpp:258-260 | pushing u onto each target adds u to w's edges as often as w is a target |
| HeapDump.TransposeOfCount | src/heap_dump.cpp:257-261 | over distinct keys, the edge w to x occurs in the transpose as often as x to w in the graph |
| HeapDump.Transpose | src/heap_dump.cpp:254-264 | every edge u to w becomes w to u exactly as many times as it occurs, whatever order the hash map visits, and every node of the result has an edge |
| HeapDump.TransposedEdge | src/heap_dump.cpp:254-264 | every edge of the transpose comes from an edge of the graph |
| HeapDump.TransposeInRange | src/heap_dump.cpp:254-264 | the transpose of a graph over 1..n is one too |
| HeapDump.Reverse | src/heap_dump.cpp:280 | reversal puts element i at position length - 1 - i |
| HeapDump.ReverseSame | src/heap_dump.cpp:280 | reversal keeps the elements and their distinctness |
| HeapDump.JoinSegment | src/heap_dump.cpp:284-289 | a collected component leaves the marks listing exactly the earlier vertices and the component, each once |
| HeapDump.FinishOrder | src/heap_dump.cpp:267-275 | the first pass lists every vertex of 1..n exactly once, in finishing order |
| HeapDump.CollectComponents | src/heap_dump.cpp:282-290 | the second pass collects non-empty components that list every vertex of 1..n exactly once, each referrer of a component in it or in an earlier one |
| HeapDump.ReferrersOfLast | src/heap_dump.cpp:284-289 | the component just collected keeps every referrer in it or in an earlier component |
| HeapDump.Condense | src/heap_dump.cpp:266-295 | the components are non-empty, partition the vertices 1..n, and are in topological order: every referrer of a component is in it or in an earlier component |
| DominatorTree.Range | src/sizes/dominator_tree.cpp:48-49 | the vertices are exactly 0..n-1 |
| DominatorTree.RecordEdge | src/sizes/dominator_tree.cpp:43 | recording v as a predecessor of its successor keeps every recorded predecessor an actual referrer |
| DominatorTree.SetParent | src/sizes/dominator_tree.cpp:40 | setting the parent of a vertex not numbered yet keeps the search state |
| DominatorTree.NumberNext | src/sizes/dominator_tree.cpp:35-37 | numbering the next vertex keeps the numbering a bijection onto the numbers given out so far, and stays below N |
| DominatorTree.DfsLoopChild | src/sizes/dominator_tree.cpp:39-42 | a recursive call leaves the loop state where it was |
| DominatorTree.DfsLoopEdge | src/sizes/dominator_tree.cpp:43 | recording the edge to the next successor moves the loop on |
| DominatorTree.Dfs | src/sizes/dominator_tree.cpp:33-45 | dfs gives v the next number, numbers every successor other than 0 still unnumbered with v as its parent, and records v as a predecessor of each successor |
| DominatorTree.ReachClosed | src/sizes/dominator_tree.cpp:33-45 | every vertex of a set closed under edges and holding 0 is reached from 0 |
| DominatorTree.DfsNumbersAll | src/sizes/dominator_tree.cpp:66-67 | with every vertex reachable from 0, the search numbers all N vertices |
| DominatorTree.DfsPreorder | src/sizes/dominator_tree.cpp:33-45 | the search's result is a preorder: numbers and vertices are inverse, 0 is numbered 0, each parent is numbered earlier and is a recorded predecessor, and every predecessor is a referrer |
| DominatorTree.Number | src/sizes/dominator_tree.cpp:49-67 | the zeroed vectors and the call dfs(0) number all N vertices in preorder |
| DominatorTree.ShortcutMin | src/sizes/dominator_tree.cpp:18-20 | pointing v at the root of its tree with the path's best label changes no path minimum |
| DominatorTree.ShortcutPaths | src/sizes/dominator_tree.cpp:17-20 | the last step of compress leaves v next to its root, with the least semi on its path as its label |
| DominatorTree.Link | src/sizes/dominator_tree.cpp:10-12 | link makes v the ancestor of w and changes no other ancestor |
| DominatorTree.Compress | src/sizes/dominator_tree.cpp:14-22 | compression keeps the forest and its members, leaves later-numbered vertices alone, puts v next to its root, labels v with the least semi on its old path, and changes no path minimum |
| DominatorTree.Eval | src/sizes/dominator_tree.cpp:24-31 | a vertex outside the forest is its own answer; otherwise the answer has the least semi on its forest path, and is numbered no later than v |
| DominatorTree.PreorderRanks | src/sizes/dominator_tree.cpp:33-45 | a preorder numbering gives distinct numbers |
| DominatorTree.SemiLower | src/sizes/dominator_tree.cpp:73-75 | lowering semi of the current vertex stays within its own number |
| DominatorTree.SemiBelow | src/sizes/dominator_tree.cpp:71-76 | a predecessor numbered before w has a semi below w's number |
| DominatorTree.SemiLink | src/sizes/dominator_tree.cpp:77-78 | with semi below its number, w waits in a bucket and is linked under its parent |
| DominatorTree.SemiGuess | src/sizes/dominator_tree.cpp:81-86 | the guess for a waiting vertex is the eval answer when that has a smaller semi, and the parent otherwise |
| DominatorTree.LowerSemi | src/sizes/dominator_tree.cpp:71-76 | semi of the current vertex drops to the least semi of eval over its predecessors; the DFS parent being one, it ends below the vertex's own number |
| DominatorTree.AssignGuesses | src/sizes/dominator_tree.cpp:80-88 | every vertex waiting in the parent's bucket gets its dominator guess, keeping the pass's state |
| DominatorTree.SemiDominators | src/sizes/dominator_tree.cpp:69-89 | every semi is at most the vertex's number and below it except at the root, and every guess is numbered before its vertex |
| DominatorTree.Counted | src/sizes/dominator_tree.cpp:93-102 | the count of numbered vertices under a dominator is bounded by the vertices considered |
| DominatorTree.CountedStep | src/sizes/dominator_tree.cpp:99-101 | fixing the dominator of the next vertex counts it under its new dominator |
| DominatorTree.CountedAll | src/sizes/dominator_tree.cpp:93-102 | once every vertex but the root is numbered, the count is the number of children |
| DominatorTree.IdomStepDoms | src/sizes/dominator_tree.cpp:94-97 | fixing the dominator of the next vertex keeps it earlier in preorder, or -1 |
| DominatorTree.IdomStep | src/sizes/dominator_tree.cpp:93-102 | fixing a dominator and counting it under that dominator keeps the pass's state |
| DominatorTree.ImmediateDominators | src/sizes/dominator_tree.cpp:91-102 | the root's dominator becomes -1; a vertex whose guess is not the vertex its semi names takes over its guess's final dominator; the result is a forest in preorder, and childCount counts each vertex's children |
| DominatorTree.PeelStart | src/sizes/dominator_tree.cpp:104-109 | the queue starts with the vertices other than 0 that have no children |
| DominatorTree.PeelComplete | src/sizes/dominator_tree.cpp:111-121 | a vertex whose children are all done holds its whole retained size |
| DominatorTree.PeelCounts | src/sizes/dominator_tree.cpp:117 | marking a leaf done lowers the pending count of its dominator by one |
| DominatorTree.PeelSums | src/sizes/dominator_tree.cpp:116 | adding a complete leaf to its dominator keeps every partial sum right |
| DominatorTree.PeelLive | src/sizes/dominator_tree.cpp:116 | moving a leaf's size into its live dominator keeps the live total |
| DominatorTree.PeelPop | src/sizes/dominator_tree.cpp:112-120 | popping the front leaf and adding it to its dominator keeps the peeling state and leaves fewer vertices not done |
| DominatorTree.PeelAllDone | src/sizes/dominator_tree.cpp:111-121 | with the queue empty, every vertex with a dominator is done |
| DominatorTree.PeelFinish | src/sizes/dominator_tree.cpp:111-121 | at the end every vertex holds the sum of the sizes of its dominator subtree, and the roots together hold the total size |
| DominatorTree.PeelLeaves | src/sizes/dominator_tree.cpp:60-61 | every vertex starts with its own size and the leaf peeling leaves the subtree sum at every vertex, the roots adding up to the total |
| DominatorTree.CalculateRetainedSizesViaDominatorTree | src/sizes/dominator_tree.cpp:48-124 | with every vertex reachable from 0, the result gives every vertex the size sum of its subtree in a dominator forest (rooted at 0, ordered by a depth-first numbering), the roots add up to the total, and with non-negative sizes no vertex holds less than its own size |
| DominatorForest.Children | src/sizes/dominator_tree.cpp:100 | a vertex has no children exactly when no vertex names it as dominator |
| DominatorForest.Pending | src/sizes/dominator_tree.cpp:117 | no children are pending exactly when all of them are done |
| DominatorForest.NotDone | src/sizes/dominator_tree.cpp:111-121 | the vertices not done are bounded by the vertices considered |
| DominatorForest.SubtreeAtLeast | src/sizes/dominator_tree.cpp:116 | with non-negative sizes a retained size is at least the vertex's own size |
| DominatorForest.DoneSumAll | src/sizes/dominator_tree.cpp:116 | once every child is done, the done children account for all of them |
| DominatorForest.LiveRoots | src/sizes/dominator_tree.cpp:111-121 | once every non-root is done, the live vertices are exactly the roots |
| DominatorForest.AboveEarlier | src/sizes/dominator_tree.cpp:95-98 | an ancestor in the dominator forest is numbered before its descendants |
| DominatorForest.AboveThrough | src/sizes/retained_size_via_dominator_tree.cpp:101-105 | whatever lies above a vertex lies above its descendants too |
| DominatorForest.ChildToward | src/sizes/retained_size_via_dominator_tree.cpp:101-105 | the child of v on the way down to a descendant exists, and is the descendant or lies above it |
| DominatorForest.ChildTowardUnique | src/sizes/retained_size_via_dominator_tree.cpp:101-105 | a child of v that is w or above it is the child toward w |
| DominatorForest.KidsChainStep | src/sizes/retained_size_via_dominator_tree.cpp:101-105 | a descendant is counted under exactly one child of v |
| DominatorForest.SubtreeChain | src/sizes/retained_size_via_dominator_tree.cpp:101-105 | the subtree sum of v is its own size plus the sizes of every vertex it lies above, so leaf peeling and chain walking agree |
| RetainedSizeViaDominatorTree.AboveFrame | src/sizes/retained_size_via_dominator_tree.cpp:95-105 | whether v lies above x depends only on the dominators of vertices numbered no later than x |
| RetainedSizeViaDominatorTree.WalkedStep | src/sizes/retained_size_via_dominator_tree.cpp:101-105 | taking in the next vertex adds its size exactly to the vertices above it |
| RetainedSizeViaDominatorTree.WalkedAll | src/sizes/retained_size_via_dominator_tree.cpp:95-106 | once every number is taken in, the walked sizes are those of all proper descendants |
| RetainedSizeViaDominatorTree.ClimbStep | src/sizes/retained_size_via_dominator_tree.cpp:102-104 | adding the vertex's size at temp and moving to temp's dominator keeps the chain walk's state |
| RetainedSizeViaDominatorTree.AddToChain | src/sizes/retained_size_via_dominator_tree.cpp:101-105 | the vertex's size is added to every vertex on its chain of dominators and to no other |
| RetainedSizeViaDominatorTree.ChainFix | src/sizes/retained_size_via_dominator_tree.cpp:96-99 | fixing the dominator of the next vertex changes nothing already walked and keeps the forest |
| RetainedSizeViaDominatorTree.ChainAdd | src/sizes/retained_size_via_dominator_tree.cpp:101-105 | after the walk above the next vertex, it counts as walked |
| RetainedSizeViaDominatorTree.AccumulateChains | src/sizes/retained_size_via_dominator_tree.cpp:94-106 | the root's dominator becomes -1, each dominator is fixed as the source does, and every vertex ends with its own size plus the sizes of all vertices it lies above in the forest `dom` (not proved to be the immediate-dominator tree) |
| RetainedSizeViaDominatorTree.Compress0 | src/sizes/retained_size_via_dominator_tree.cpp:12-20 | as written, compress keeps the forest with 0 as the no-ancestor value and does nothing when the ancestor's ancestor is 0 |
| RetainedSizeViaDominatorTree.Eval0 | src/sizes/retained_size_via_dominator_tree.cpp:22-28 | as written, a vertex whose ancestor is 0 is its own answer, even when it was linked under vertex 0 |
| RetainedSizeViaDominatorTree.SentinelLosesRootLink | src/sizes/retained_size_via_dominator_tree.cpp:8-10 | on the graph 0 to 1, 0 to 3, 1 to 2, 3 to 4, 4 to 2, linking 3 under 0 leaves the ancestors unchanged |
| RetainedSizeViaDominatorTree.SentinelEval | src/sizes/retained_size_via_dominator_tree.cpp:22-28 | on that graph, as written, eval(4) answers 4 |
| RetainedSizeViaDominatorTree.CorrectedPathMin | src/sizes/retained_size_via_dominator_tree.cpp:22-28 | with -1 as the no-ancestor value, the least semi on 4's path is 0, the intended answer |
| RetainedSizeViaDominatorTree.CalculateRetainedSizes | src/sizes/retained_size_via_dominator_tree.cpp:50-109 | corrected, with -1 as no ancestor where the source writes 0, and every vertex reachable from 0: every vertex gets its own size plus the sizes of every vertex it lies above in the forest `dom`, which is its subtree sum; that `dom` is the immediate-dominator tree is not proved |
| RetainedSizeViaDominatorTree.ReachNew | src/sizes/retained_size_via_dominator_tree.cpp:126-137 | a vertex with an edge from a vertex reached within its own number is reached within its own number |
| RetainedSizeViaDominatorTree.Dumped | src/sizes/retained_size_via_dominator_tree.cpp:121-140 | an untagged object gets the next tag, a new empty vertex and its size; a root reference records the tag as a root, any other appends it to the referrer's edges; nothing else changes |
| RetainedSizeViaDominatorTree.DumpedKeeps | src/sizes/retained_size_via_dominator_tree.cpp:126-137 | a new tag is the next free one, and every vertex stays reached through its referrer or as a root |
| RetainedSizeViaDominatorTree.RootedReachable | src/sizes/retained_size_via_dominator_tree.cpp:148-150 | with the roots linked to the super-root, every vertex is reachable from 0, as the dominator calculation needs |
| RetainedSizeViaDominatorTree.HeapDumpInfo.constructor | src/sizes/retained_size_via_dominator_tree.cpp:112-119 | the dump starts with the super-root alone, of size 0, and tag 1 to give out next |
| RetainedSizeViaDominatorTree.HeapDumpInfo.DumpHeapGraph | src/sizes/retained_size_via_dominator_tree.cpp:121-140 | the callback in place performs the dump step and always answers JVMTI_VISIT_OBJECTS |
| RetainedSizeViaDominatorTree.HeapDumpInfo.AddRootEdges | src/sizes/retained_size_via_dominator_tree.cpp:148-150 | every root becomes an edge out of the super-root; the rest is kept |
| RetainedSizeViaDominatorTree.TagsStep | src/sizes/retained_size_via_dominator_tree.cpp:126-131 | the tag the callback leaves on the referee keeps every other tag and every size in place |
| RetainedSizeViaDominatorTree.RefsStep | src/sizes/retained_size_via_dominator_tree.cpp:133-137 | references recorded before stay recorded, and the new one is recorded too |
| RetainedSizeViaDominatorTree.DumpStep | src/sizes/retained_size_via_dominator_tree.cpp:121-140 | one more reference keeps the dump state |
| RetainedSizeViaDominatorTree.DumpHeap | src/sizes/retained_size_via_dominator_tree.cpp:145 | following the references in order gives every reached object a tag below the next tag, with its size at that vertex, and records every reference as an edge or a root |
| RetainedSizeViaDominatorTree.ExecuteOperation | src/sizes/retained_size_via_dominator_tree.cpp:142-167 | a traversal error gives no answer; otherwise, with the corrected -1 sentinel, each listed object gets the subtree sum of its vertex in the forest `dom` of the dump (not proved to be the immediate-dominator tree), which is at least its own size |
| TestBase.ValueOf | test_data/src/common/TestBase.java:11-32 | a code exists exactly for the ids 0, 1 and 2, and it carries the id asked for |
| TestBase.ValueOfId | test_data/src/common/TestBase.java:18-27 | looking up a code's own id gives the code back |
| TestBase.GetErrorCode | test_data/src/common/TestBase.java:77-79 | the first status entry names the code; other values give null |
| TestBase.ReferenceDescription | test_data/src/common/TestBase.java:42-62 | a description exists exactly for the eighteen kinds the table lists |
| TestBase.ReferenceDescriptionDistinct | test_data/src/common/TestBase.java:42-62 | every listed kind has its own name |
| TestBase.IntToString | test_data/src/common/TestBase.java:250 | Java's decimal text of an int: a minus sign for negatives and never empty |
| TestBase.InterpretInfo | test_data/src/common/TestBase.java:246-261 | the detail text is the index for fields, static fields, array elements and constant-pool entries, the count for a truncated list, thread, depth and slot for stack and JNI locals, and "no details" otherwise; an info of the wrong shape fails |
| TestBase.LexTotal | test_data/src/common/TestBase.java:275 | String.compareTo orders any two strings |
| TestBase.LexTrans | test_data/src/common/TestBase.java:275 | String.compareTo is transitive |
| TestBase.LexAntisymmetric | test_data/src/common/TestBase.java:275 | two strings ordered both ways are equal |
| TestBase.Insert | test_data/src/common/TestBase.java:275 | insertion keeps the strings sorted and adds one string |
| TestBase.Sort | test_data/src/common/TestBase.java:275 | the sort returns the same strings in order |
| TestBase.SortedFirst | test_data/src/common/TestBase.java:275 | the first of a sorted list is no greater than any of its strings |
| TestBase.SortedUnique | test_data/src/common/TestBase.java:275 | two sorted orders of the same strings are the same list |
| TestBase.Reference | test_data/src/common/TestBase.java:269-272 | a reference renders exactly when its index is -1 or in the map and its info fits; a root is shown as root, another referrer by its new index |
| TestBase.BuildReferencesString | test_data/src/common/TestBase.java:263-278 | the three arrays must be equally long and every reference must render; then the texts are sorted and joined with commas |
| TestBase.ReferencesOrderFree | test_data/src/common/TestBase.java:275-277 | the joined text depends only on which references there are, not on their order |
| TestBase.IndexOfReference | test_data/src/common/TestBase.java:193-205 | the position of the value by identity, -1 exactly when it is absent, and a failure exactly when it appears twice |
| TestBase.CountOne | test_data/src/common/TestBase.java:193-205 | an object at one position only is counted once |
| TestBase.CountTwo | test_data/src/common/TestBase.java:193-205 | an object at two positions is counted at least twice |
| TestBase.RemapIndices | test_data/src/common/TestBase.java:220-228 | with distinct objects the two index arrays are inverse permutations mapping each sorted object to its old position; a repeated object fails |
| TestBase.FindFirst | test_data/src/common/TestBase.java:339 | the first position where the predicate holds, or the length |
| TestBase.StripAt | test_data/src/common/TestBase.java:339 | without '@' the text is kept; otherwise from the first '@' up to the next line terminator is removed |
| TestBase.NumberNext | test_data/src/common/TestBase.java:334 | a new object gets the next number, keeping the numbering one-to-one |
| TestBase.AsStringImpl | test_data/src/common/TestBase.java:329-340 | an object met before is shown as #recursive with its first-visit number; a new one, null too, gets the next number |
| TestBase.AsStringList | test_data/src/common/TestBase.java:337 | the elements are rendered left to right sharing one visited map, which only grows and stays one-to-one |
| TestBase.SelfReference | test_data/src/common/TestBase.java:329-340 | an array holding itself is shown as [#recursive0#] |
| TestBase.RepeatedNull | test_data/src/common/TestBase.java:330-335 | a second null is a repeat like any other object: [null, #recursive1#] |
| TestNodes.NodeCounter.constructor | test_data/src/common/TestNode.java:5 | the counter starts at 0 |
| TestNodes.Steps | test_data/src/common/TestNode.java:35 | the pre-decrement loop takes at most depth - 1 steps, and unboundedly many when depth is the least int and wraps |
| TestNodes.Decrement | test_data/src/common/TestNode.java:35 | Java's --x on an int wraps the least int to the greatest |
| TestNodes.TestNode.constructor | test_data/src/common/TestNode.java:8-10 | a chain of depth fresh nodes (one for a depth below one, 2^31 for the least int, whose `depth - 1` wraps) ends in null; this node is numbered before the rest, which are numbered backwards |
| TestNodes.TestNode.WithLeaf | test_data/src/common/TestNode.java:12-14 | a chain of depth nodes (two for a depth below two) ends in the leaf, all nodes before it fresh; the two decrements wrap at the least int, giving 2^31 - 1 nodes for it and 2^31 for the next; without a leaf as the other constructor |
| TestNodes.ListLength | test_data/src/common/TestNode.java:21-27 | the count of nodes made: depth when positive, one fewer for a leaf, and the greatest int when the leaf's decrement wraps; never negative |
| TestNodes.TestNode.Wrap | test_data/src/common/TestNode.java:16-18 | a fresh node whose child is the given node, numbered next |
| TestNodes.TestNode.ConstructList | test_data/src/common/TestNode.java:20-31 | `ListLength` fresh nodes (depth of them, one fewer with a leaf, whose `--depth` wraps the least int to the greatest), each the parent of the one made before it; the last made is returned, or the leaf when none is made |
| TestNodes.TestNode.GetChild | test_data/src/common/TestNode.java:33-40 | the node reached after at most depth - 1 steps, stopping at the end of the chain |
| TestNodes.TestNode.GetLast | test_data/src/common/TestNode.java:42-49 | the last node of the chain, whose child is null |
| TestTrees.TokenToImpl | test_data/src/common/TestTreeNode.java:18-24 | a creator exists exactly for the tokens 0 to 3, and "0" creates null |
| TestTrees.PreorderLength | test_data/src/common/TestTreeNode.java:29-40 | a tree with k nodes is written with 2k + 1 tokens |
| TestTrees.CreateNode | test_data/src/common/TestTreeNode.java:29-40 | a successful parse leaves a proper suffix of the tokens |
| TestTrees.CreateNodeOfPreorder | test_data/src/common/TestTreeNode.java:29-40 | parsing the pre-order tokens of a tree gives the tree back and leaves whatever follows |
| TestTrees.CreateNodeIsPreorder | test_data/src/common/TestTreeNode.java:29-40 | what a successful parse consumed is the pre-order of the tree it built |
| TestTrees.ImplTokenRead | test_data/src/common/TestTreeNode.java:18-24 | the token a node is written with is read back as that node's class |
| TestTrees.ParseConsumes | test_data/src/common/TestTreeNode.java:29-40 | a parsed tree with k nodes consumes 2k + 1 tokens, and the parse fails exactly when no prefix of the tokens describes a tree |
| TestTrees.Word | test_data/src/common/TestTreeNode.java:43 | the longest prefix without whitespace |
| TestTrees.Fields | test_data/src/common/TestTreeNode.java:43 | the maximal runs of non-whitespace characters |
| TestTrees.FieldsOfJoin | test_data/src/common/TestTreeNode.java:43 | splitting joined tokens gives them back when none is empty or holds whitespace |
| TestTrees.CreateTreeFromPreorder | test_data/src/common/TestTreeNode.java:42-44 | the text of a tree parses back to the tree |
| TestTrees.PreorderTokens | test_data/src/common/TestTreeNode.java:18-24 | a tree is written with at least one token, each one of 0 to 3 |
| ListenerRegistry.FirstIndex | test_data/proxy/src/com/intellij/memory/agent/ArrayOfListeners.java:36-44 | the position of the first occurrence, or -1 exactly when absent |
| ListenerRegistry.RemoveAt | test_data/proxy/src/com/intellij/memory/agent/ArrayOfListeners.java:30-32 | the sequence without the element at i, the others in order |
| ListenerRegistry.ArrayCopy | test_data/proxy/src/com/intellij/memory/agent/ArrayOfListeners.java:14 | length elements of the source from srcPos land in the destination from dstPos, the rest of the destination kept |
| ListenerRegistry.ArrayOfListeners.Listeners | test_data/proxy/src/com/intellij/memory/agent/ArrayOfListeners.java:38 | the listeners of the registered holders, in order |
| ListenerRegistry.ArrayOfListeners.constructor | test_data/proxy/src/com/intellij/memory/agent/ArrayOfListeners.java:6-8 | a new registry is empty |
| ListenerRegistry.ArrayOfListeners.Add | test_data/proxy/src/com/intellij/memory/agent/ArrayOfListeners.java:10-18 | a fresh array one longer, the old holders in place and a fresh holder for the listener and its classes at the end |
| ListenerRegistry.ArrayOfListeners.RemoveListener | test_data/proxy/src/com/intellij/memory/agent/ArrayOfListeners.java:20-22 | removes the first holder of the listener, and changes nothing when there is none |
| ListenerRegistry.ArrayOfListeners.Remove | test_data/proxy/src/com/intellij/memory/agent/ArrayOfListeners.java:24-34 | an index out of range changes nothing; otherwise a fresh array one shorter without that holder, the others in order |
| ListenerRegistry.ArrayOfListeners.FindListener | test_data/proxy/src/com/intellij/memory/agent/ArrayOfListeners.java:36-44 | the first position holding the listener, or -1 |
| ListenerHolders.AllocationListenerHolder.constructor | test_data/proxy/src/com/intellij/memory/agent/AllocationListenerHolder.java:7-10 | the holder keeps the listener and the tracked classes |
| ListenerHolders.AllocationListenerHolder.NotifyListenerIfNeeded | test_data/proxy/src/com/intellij/memory/agent/AllocationListenerHolder.java:12-24 | at most one call; one exactly when nothing is tracked or the object's own class is tracked, carrying the arguments unchanged |
| ListenerHolders.AllocationListenerHolder.NotifyListener | test_data/proxy/src/com/intellij/memory/agent/AllocationListenerHolder.java:26-28 | exactly one onAllocation call carrying the arguments unchanged |

## Left out

- JVMTI and JNI marshalling is not modelled: `FollowReferences`, `IterateThroughHeap`, `GetObjectsWithTags`, Java array building, class and method name lookups. The references and objects they would report are caller-supplied sequences, and the tag of each object is a map entry.
- Errors returned by individual JVMTI calls (`GetTag`, `SetTag`, memory allocation) are not modelled. Every such call succeeds. The error results of the model are the agent's own (cancellation, timeout, bad input).
- `steady_clock` and `fileExists` are inputs, not modelled: an instant in nanoseconds and a cancelled flag.
- Progress reports sent from inside the actions are left out. Only `ProgressManager`'s counter rule and its JSON text are modelled; the progress file itself is not.
- Logging and printing (src/log.cpp and the debug output of the prototypes) are left out. They do not affect results.
- The action wrappers (memory_agent_action, timed_action headers, retained_size_action.h) only wrap the status and payload in an array. Their status rule is the one `TimedAction` models.
- The "MEMORY LEAK FOUND" tag-balance fatal checks are left out: `cleanHeap`'s final balance test in the size actions, and the checks in src/sizes/retained_size_and_held_objects.cpp and src/objects_size.cpp. Two balances are modelled instead. The path finder's `CleanHeap` reports whether the balance returns to zero, and `ObectSize.EstimateBalancesTags` proves the balance of the corrected prototype returns to zero.
- The C++ balance counters of src/roots/roots_tags.h are `static` in a header, so each translation unit keeps its own copy. The model keeps one counter per module.
- `std::vector` buffers that the code only appends to or reads are `seq` values. Arrays are kept where the code updates a buffer in place (`TagInfoArrays`, `ShallowSizeByClasses`, the listener array).
- Overflow of `jlong` sizes and of `size_t` counters is not modelled: sizes and counts are unbounded integers. Wrap-around is modelled only where it changes behaviour: the `unsigned int` counters of the stop checks, the `uint16` query indices and the `uint16` count of `getNewArraySize`, the `int8` class ids of `objects_size`, and the `int` decrements of `TestNode` (`depth - 1`, `--depth`, `getChild`'s `--depth`).
- The `sizes` buffer of src/sizes/shallow_size_by_classes.cpp is never freed. Freeing is not modelled.
- `removeAllTagsFromHeap` in src/sizes/retained_size_and_held_objects.cpp is not modelled beyond the final tag map, because it is a plain JVMTI iteration that sets every tag to 0.
- `fetchHeapDump`, `outputGraph`, `tagClasses` and `untagClasses` in src/heap_dump.cpp are file output and JVMTI class listing, so they are not modelled. The graph builder takes the class indices as already set on the class tags.
- Both `estimateObjectsSizes` overloads of src/objects_size.cpp are left out. The vector overload (lines 140-157) runs `FollowReferences` with `visitReference` and then `IterateThroughHeap` over the tagged objects with `visitObject`. The model has both callbacks as methods (`ObjectsSize.ObjectsSizeAgent.VisitReference` and `ObjectsSize.ObjectsSizeAgent.VisitObject`) but does not compose them into that driver, whose result vector is sized by a caller outside the file. The Java-array overload (lines 176-189) reads an undefined `arrayOfArrays` and has its call commented out, and so does `estimateObjectSize` (lines 159-174).
- The class-loader and naming helpers of src/objects_size.cpp are left out: `tagClasses`, `getToString` and the answer wrapping. The model covers its state helpers, `markClass` and its two callbacks.
- The prototype entry points (library.cpp, src/library.cpp, src/gc_roots.cpp, src/agent.cpp) are left out. They are JNI glue around copies of `obect_size` logic, and their root walks have no visited guard.
- Allocation sampling (src/allocation_sampling.cpp) is left out. It relies on asynchronous JVMTI callbacks and JNI global references. Its filter is modelled through `ListenerHolders`.
- Class-loader sizes (src/sizes/retained_size_by_classloaders.cpp) are left out. They use the deprecated root iteration and JNI class-loader comparison.
- src/cancellation_checker.h is not part of this model. The checker's constructor takes its deadline and its starting counters as inputs.
- Concurrency is not modelled: treating the listener array as copy-on-write is modelled, but the threads reading it are not.
- DominatorTree.CalculateRetainedSizesViaDominatorTree: the `dom` vector is proved to be a forest whose every vertex follows its parent in depth-first order, with retained sizes equal to subtree sums over that forest. That the parent is the immediate dominator is not proved.
- DominatorTree.ImmediateDominators: the result is proved to be a forest ordered by preorder, not that each entry is the immediate dominator.
- DominatorTree.AssignGuesses: the contract states that the bucket invariant is kept; the guess each vertex gets is stated by the step lemma `DominatorTree.SemiGuess`.
- DominatorTree.Number: requires every vertex to be reachable from vertex 0. This holds for every dumped heap graph, but the source does not check it.
- RetainedSizeViaDominatorTree.CalculateRetainedSizes: like `DominatorTree.Number`, requires every vertex to be reachable from the super-root.
- RetainedSizeViaDominatorTree.DumpHeap: requires that JVMTI reports each referrer before its referees. The breadth-first `FollowReferences` promises this, and the graph builder's numbering relies on it.
- RetainedSizeViaDominatorTree.ExecuteOperation: carries the same reporting-order precondition as `DumpHeap`.
- HeapDump.Condense: the components are proved to partition the nodes, with every edge between components going from an earlier component to a later one. That each component is strongly connected is not proved.
- ListenerRegistry.ArrayCopy: stated only for a source and a target that are different arrays, which is how the listener array uses `System.arraycopy`.
- ListenerRegistry.ArrayOfListeners.FindListener: listeners are compared by identity, which is what `equals` does for the proxy's listener objects. A listener class overriding `equals` is not modelled.
- ListenerHolders.AllocationListenerHolder.NotifyListenerIfNeeded: a tracked class matches only the object's own class, as the source's `getClass().equals` test does (for `Class` objects, `equals` is identity). The tracked classes are a value, so aliasing of the caller's array is not modelled.
- TestNodes.TestNode.constructor: the shared counter `num` is an unbounded integer, so wrap-around of Java's `int` numbering after 2^31 - 1 nodes is not modelled. The decrements of the depth are modelled. `toString` is not modelled.
- TestBase.Sort: strings are ordered by their characters as code points. Java's `compareTo` compares UTF-16 code units, which orders characters outside the Basic Multilingual Plane differently.
- TestBase.IndexOfReference: the objects are identities, so a null entry in the array is not modelled.
- TestBase.RemapIndices: the sorted order is an input that is a permutation of the objects. The comparator of `doPrintGcRoots` that produces it is not modelled.
- TestBase.AsStringImpl: an object that is not an array is rendered by an abstract `toString` text, with its `@hash` suffix removed as the source does.
- RetainedSizeAction.Callbacks.RetagStartObjects: the entries of the start tag made by `ClassTag::createStartTag` are an input, because the body of that method is not part of this model.
- PathsResult.GetSortedObjectToTag: models the corrected request, which holds the node tags alone. The source puts `nodes.size()` zero tags before them; that as-written request is `PathsResult.RequestAsWrittenFindsNothing` (see Findings).
- PathsSearch.CollectPathsToClosestGcRoots: the objects of the answer are fetched with the corrected request of `GetSortedObjectToTag`. The paths follow the breadth-first tree, and the roots come in order of distance, but that each path is a shortest path to its root is not stated.
- PathsSearch.ExecuteOperation: fetches the objects with the corrected request of `GetSortedObjectToTag`, as `CollectPathsToClosestGcRoots` does.
- ObectSize.Follow: folds the corrected callback `CorrectedReference`, which tags an untagged self-referencing object once. The as-written callback `Reference` leaks a tag there (`ObectSize.SelfReferenceLeaksTag`, see Findings).
- ObectSize.FollowKeepsAttached: holds for the corrected callback that `ObectSize.Follow` folds, not for the callback as written.
- ObectSize.SizesAgent.FollowReferences: runs the corrected callback, as `ObectSize.Follow` does.
- ObectSize.SizesAgent.EstimateObjectSize: runs the corrected callback, as `ObectSize.Follow` does.
- RetainedSizeViaDominatorTree.CalculateRetainedSizes: runs the corrected `eval` and `compress`, with -1 for "no ancestor" where the source writes 0 (see Findings). The `dom` vector is proved to be a forest ordered by preorder, with retained sizes equal to its subtree sums. That it is the immediate-dominator tree is not proved.
- RetainedSizeViaDominatorTree.AccumulateChains: the chain sums are over the forest `dom`, which is not proved to be the immediate-dominator tree.
- RetainedSizeViaDominatorTree.ExecuteOperation: uses the corrected `CalculateRetainedSizes`, so the sizes are subtree sums over a forest that is not proved to be the immediate-dominator tree.
- TagInfoArrays.TagInfoArray.Merge: counts the merged entries without the `uint16` wrap (see Findings). The source's array size stays a `uint16`, and `TagInfoArrays.GetNewArraySize` models its count as written.
- TagInfoArrays.TagInfoArray.Extend: requires the two sizes to add up to at most 0xFFFF. Beyond that, the source's `size += infoArray.size` wraps, and that is not modelled.
- ObjectsSize.AddSizes: requires every retained id to index the result, because `visitObject` writes `result[id]` unchecked.
- ObjectsSize.ObjectsSizeAgent.VisitObject: carries the same requirement as `ObjectsSize.AddSizes`.
- PathsResult.NodeRequestFindsNodes: stated for node tags that are non-zero, which every tag the path finder assigns is.

## Findings

| source | as written | input that shows it | evidently intended | confidence | as-written member | corrected member |
|---|---|---|---|---|---|---|
| src/timed_action.cpp:26-39 | the static call counter goes from 0 to 1 on the first call and then stays at 1, so only the first call of the whole process looks at the clock and the cancellation file | call number 10000, after the deadline: it does not check and does not stop | check once every 10000 calls | not executed | TimedAction.AsWrittenOnlyFirst | TimedAction.CorrectedEveryInterval |
| src/cancellation_manager.cpp:21-22 | `checksToPerform *= 10` has no bound, so in `unsigned int` arithmetic the count wraps modulo 2^32 | 28 consecutive real checks each less than a second apart: the count becomes 0 | stop multiplying before the product overflows, as src/cancellation_checker.cpp:16-17 does | not executed | CancellationManager.ChecksWrapToZero | CancellationChecker.StepKeepsValid |
| src/obect_size.cpp:103-114 | an untagged referrer and its referee each get a new tag; when they are the same object, the referrer's tag overwrites the referee's in the one slot, so the referee's tag is never freed | an untagged object with a reference to itself: two tags are counted, one object is tagged | tag a self-referencing object once | not executed | ObectSize.SelfReferenceLeaksTag | ObectSize.CorrectedKeepsAttached |
| src/objects_size.cpp:191-200 | `markClass` stores the class index in an `int8_t`, so indices from 128 on become negative ids and their sizes go to the wrong slot or none | a class list with more than 128 classes: index 128 is stored as -128 and index 255 as -1, which reads as untracked | keep the class index as given | not executed | ObjectsSize.MarkClassLosesHighIds | ObjectsSize.ObjectsSizeAgent.MarkClass |
| src/roots/paths_to_closest_gc_roots.cpp:130-132 | the tag vector is created with `nodes.size()` zero entries and the node tags are then appended, so the request begins with tags 0, which `GetObjectsWithTags` refuses | any non-empty list of nodes: the request fails and the answer holds no path objects | reserve the space and append, so the request holds exactly the nodes' tags | not executed | PathsResult.RequestAsWrittenFindsNothing | PathsResult.NodeRequestFindsNodes |
| src/sizes/retained_size_via_dominator_tree.cpp:13-23 | `compress` and `eval` use 0 as "no ancestor", but 0 is the super-root, so a link to the super-root reads as no link and `eval` stops too early | the graph 0→1, 0→3, 1→2, 3→4, 4→2: `eval(4)` returns 4, whose semi-dominator is 3, while the least semi-dominator on its path is 0, at vertex 3 | use a sentinel that is not a vertex (-1), as src/sizes/dominator_tree.cpp does | not executed | RetainedSizeViaDominatorTree.SentinelEval | RetainedSizeViaDominatorTree.CorrectedPathMin |
| src/sizes/tag_info_array.cpp:87-110 | `getNewArraySize` counts in `uint16`, so a merge of 65536 distinct indices is counted as 0, and the constructor then writes 65536 entries into a zero-length buffer | an array with indices 0 to 32767 merged with one holding 32768 to 65535 | count the merged entries in a wider integer | not executed | TagInfoArrays.FullMergeWraps | TagInfoArrays.TagInfoArray.Merge |

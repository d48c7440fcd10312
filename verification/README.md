# Verified models of the msm7x30-common runtime pieces

This project models, in Dafny 4.11, the parts of the msm7x30-common repository whose
correctness is an invariant over whole runs or over shared memory, and proves what they
promise. Four components are covered.

**Reference counting** (`libshims/RefBase.cpp`, `libshims/RefBase.h`). `RefCount` is a step
machine for one object, its `weakref_impl` and any number of threads: a step is one atomic
operation or one read of a shared counter, by one thread. Callers are bound only by what the
code asks of them: a caller of `incStrong`, `incWeak` or `attemptIncStrong` keeps alive what
it calls through until the call has its own reference, and counts stay below their 32-bit
limits. `RefCalls` derives what complete calls of a single thread do, and `WeakPtr` builds the
`wp<T>` class over any number of objects and weak pointers on that.

**Copy-on-write vectors** (`libshims/VectorImpl.cpp`, `libshims/SharedBuffer.cpp`).
`SharedVector` has classes for buffers and vectors and a `Family`: any set of vectors that
share buffers in any way. Every operation is stated for a whole family. `VectorSort` and
`SortedVector` add the sort, the binary search and the two merges. Memory allocation succeeds
or fails as a parameter says; where the code stops the process the model returns `Aborted`, and
where it reads memory that holds no item for it, `Undefined`.

**The event scheduler** (`libril/ril_event.cpp`). `RilTimers` holds the time arithmetic and
the deadline-ordered list as values; `RilEvents` has the circular doubly linked lists, the
table of eight watches, `readFds` and `nfds`, and one pass of the loop. Callbacks make any
calls of the API that leave waiting events linked, and the proofs hold whatever calls they make.

**Requests, wake lock and wire formats** (`libril/ril.cpp`, `libril/rilSocketQueue.h`,
`libril/RilSapSocket.cpp`). `SocketQueue` is the singly linked list with unlinking through a
pointer to a link; `RilRequests` the pending requests and their answers; `WakeLock` the release
timers of the wake lock; `Framing` the length-prefixed packets and their senders; `CdmaSms` the
parcel writer and reader of CDMA messages; `SapSocket` the two queues of SIM access requests.
Requests, wake lock, senders and SAP requests are each a machine over values, one step for a
callback or a call of `write`, and a class whose methods are proved to make exactly those steps.

`Basics` holds the option type and the byte type. `dafny verify dfyconfig.toml` checks
everything.

## Findings

- The bias of `mStrong` can be subtracted twice: `RefCount.ClashHappens` is such a run of two
  threads, and `RefCount.BiasRemovedOnceIffNoClash` shows that only a fix-up inside another
  thread's first increment does it.
- A promotion can be refused although the object lives, has the extended lifetime and was never
  asked: `RefCount.RefusedUnasked` is the run, and `RefCount.PromotionOutcome` gives the cases.
- The fast merge of two sorted vectors equals repeated `add` except when the vectors touch in a
  common key (`SortedVector.MergeAgreesIff`); merging [2, 3] into [1, 2] keeps the 2 twice
  (`SortedVector.TwoTwice`). It compares with the receiver's first and last item without looking
  whether it has any, which goes wrong exactly for something merged into nothing
  (`SortedVector.Merge`, `SortedVector.EmptyReceiver`). Merged into itself, a vector of one item
  becomes two or reads cells it is writing (`SortedVector.MergeSelf`).
- With memory at hand, an insertion reports `NO_MEMORY` exactly if it inserts nothing at the end
  of a full or empty buffer (`SharedVector.VectorImpl.GrowSucceedsIff`,
  `SharedVector.EmptyInsertion`).
- A removal reports success although it removed nothing, exactly if it wants a smaller buffer and
  can neither resize its own nor get another (`SharedVector.VectorImpl.RemoveItemsAt`,
  `SharedVector.SilentRemoval`).
- Inserting a vector into itself is sound exactly if the buffer has another owner or the items go
  behind themselves within it (`SharedVector.VectorImpl.InsertSelfAt`, `SharedVector.SelfAppend`,
  `SharedVector.SharedAppend`).
- An unsolicited message that leaves by the error exit releases a wake lock that an earlier
  message still needs (`WakeLock.ReleasedIff`, `WakeLock.ErrorExitDropsEarlier`). The messages
  that a change of radio state sends on its way never leave by it, so that change is as good as
  those messages one after the other (`WakeLock.NoticesSucceed`, `WakeLock.NestedIsSequential`).
- A SAP completion unlinks the first pending request with its message id and token. If another
  one stands in front, that one's node is freed and the completed one stays in the queue with a
  freed header (`SapSocket.CompleteKeepsIff`, `SapSocket.SharedKeyGoesWrong`). A completion of a
  request that is not pending frees its header again (`SapSocket.StaleCompletion`).

## Model

| member | source | states |
|---|---|---|
| `RefCount.StepKeepsInv` | libshims/RefBase.cpp:322-612 | One atomic step of any thread in any operation, other than a clash of two bias subtractions, keeps the invariant: both counters are the references outstanding, and the two memory blocks are deleted as the counters demand. |
| `RefCount.RunKeepsInv` | libshims/RefBase.cpp:322-612 | The invariant holds after every clash-free interleaving of any number of threads. |
| `RefCount.RunKeepsAccounts` | libshims/RefBase.cpp:322-534 | In every interleaving, clash or not, the two counters add up, the number of bias subtractions made or unavoidable never falls, and a clash makes it two at least. |
| `RefCount.BiasRemovedOnceIffNoClash` | libshims/RefBase.cpp:322-534 | In every interleaving `mStrong` is the references taken and not given back plus what is left of the bias; the bias is subtracted at most once, now and later, if and only if no promotion's fix-up subtracts it while another thread is between its first increment and its subtraction. |
| `RefCount.PromotionOutcome` | libshims/RefBase.cpp:432-534 | Stated on the move itself, wherever it leads: the step by which a promotion takes its reference finds a living object; the step that leaves the fix-up leaves the bias gone and the count exact; a step that leaves the promotion otherwise is taken in the strong lifetime only if the count had reached zero, and in the extended one on a living object, only because that declined or because a promotion that started in the strong lifetime reads a count of zero. |
| `RefCount.PromotionGoesOn` | libshims/RefBase.cpp:440-484 | Until then a promotion changes nothing, reads the count again exactly if a compare-and-swap lost a race, takes the easy way exactly if somebody had a strong reference when it read, and asks the object only in the extended lifetime. |
| `RefCount.FixUpGoesOn` | libshims/RefBase.cpp:516-531 | The fix-up changes nothing until it returns, tries to subtract exactly while the bias is there, and reads again exactly after a lost race. |
| `RefCount.WeakAttemptOutcome` | libshims/RefBase.cpp:536-555 | `attemptIncWeak` reads again exactly after a lost race and otherwise ends with one weak reference more. |
| `RefCount.NeverRevived` | libshims/RefBase.cpp:432-485 | Once the strong count of a strong-lifetime object is zero it stays zero in every continuation of the run. |
| `RefCount.NothingTouchedAfterFree` | libshims/RefBase.cpp:341-430 | No step that any thread can take reads or deletes a `weakref_impl` that was deleted, or an object that was deleted. |
| `RefCount.CleanRun` | libshims/RefBase.cpp:322-607 | After every clash-free run: exact counters; each block deleted at most once; a strong reference keeps the object, any reference the `weakref_impl` and, in the extended lifetime, the object; and when all calls are over a block is deleted exactly if its last holder has left. |
| `RefCount.ClashHappens` | libshims/RefBase.cpp:326-338 | A run of two threads, one taking the first strong reference and one promoting, in which both subtract the bias and `mStrong` ends up negative with two references out. |
| `RefCount.RefusedUnasked` | libshims/RefBase.cpp:432-485 | A run of two threads in which a promotion returns false on a living object of the extended lifetime that was never asked. |
| `RefCount.BothSubtract` | libshims/RefBase.cpp:516-531 | From the middle of that run on, the promotion's fix-up and the pending subtraction both go through. |
| `RefCalls.CallHandles` | libshims/RefBase.cpp:322-612 | What each complete call, `attemptIncWeak` included, does to the strong and weak references held by clients; a promotion gains one exactly if there is a strong reference, or a strong-lifetime object never had one, or the object agrees. |
| `RefCalls.SettledBlocks` | libshims/RefBase.cpp:341-430 | Between calls, how often each block has been deleted is exactly determined by the references held. |
| `RefCalls.StepAlone` | libshims/RefBase.cpp:322-534 | Each step of a call that runs alone keeps the books and brings the call nearer its end, so every call returns. |
| `WeakPtr.Counted.IncWeak` | libshims/RefBase.cpp:391-398 | One weak reference more, nothing else. |
| `WeakPtr.Counted.AttemptIncWeak` | libshims/RefBase.cpp:536-555 | Through a `weakref_impl` kept alive it succeeds, with one weak reference more. |
| `WeakPtr.Counted.DecWeak` | libshims/RefBase.cpp:400-430 | One weak reference less, with the deletions that go with the last one. |
| `WeakPtr.Counted.IncStrong` | libshims/RefBase.cpp:322-339 | One strong reference more on an object not yet deleted. |
| `WeakPtr.Counted.DecStrong` | libshims/RefBase.cpp:341-357 | One strong reference less. |
| `WeakPtr.Counted.ForceIncStrong` | libshims/RefBase.cpp:359-379 | The same, also from zero in the extended lifetime. |
| `WeakPtr.Counted.ExtendObjectLifetime` | libshims/RefBase.cpp:609-612 | The extended lifetime, with no reference changed. |
| `WeakPtr.Counted.AttemptIncStrong` | libshims/RefBase.cpp:432-534 | Succeeds exactly if there is a strong reference, or the object agrees, or in the strong lifetime if there never was one; and then adds one. |
| `WeakPtr.TakeStrong` | libshims/RefBase.cpp:322-339 | A strong reference more leaves the family of weak pointers intact and its object alive. |
| `WeakPtr.GiveStrong` | libshims/RefBase.cpp:341-357 | With the last strong reference the object is deleted, in the extended lifetime only if no weak pointer is left, and the `weakref_impl` exactly if none is; nothing was deleted before. |
| `WeakPtr.Extend` | libshims/RefBase.cpp:609-612 | Switching to the extended lifetime leaves the family intact. |
| `WeakPtr.FamilyBlocks` | libshims/RefBase.h:320-471 | For any set of weak pointers over any set of objects: `mWeak` is strong references plus the pointers that point at the object, and each block is deleted exactly when its last holder is gone. |
| `WeakPtr.Wp.constructor` | libshims/RefBase.h:320-348 | A weak pointer from a plain pointer or `sp` joins the family; other pointers and objects are untouched. |
| `WeakPtr.Wp.FromWp` | libshims/RefBase.h:327-358 | The same for a copy of a weak pointer. |
| `WeakPtr.Wp.Destroy` | libshims/RefBase.h:369-373 | The pointer leaves the family and its object loses one weak reference. |
| `WeakPtr.Wp.Repoint` | libshims/RefBase.h:375-396 | With the new object counted first, the pointer moves and the old object loses its reference; everything else is as it was. |
| `WeakPtr.Wp.Assign` | libshims/RefBase.h:386-396 | Assignment, self-assignment included, keeps the family and leaves all other pointers and objects alone. |
| `WeakPtr.Wp.AssignRaw` | libshims/RefBase.h:375-384 | The same from a plain pointer or an `sp`. |
| `WeakPtr.Wp.Clear` | libshims/RefBase.h:464-471 | The pointer is null and its object has one weak reference less. |
| `WeakPtr.Wp.Promote` | libshims/RefBase.h:454-462 | There is a result exactly under that condition; it means a living object with one strong reference more; no result in the strong lifetime means the object was already deleted. |
| `SharedVector.DivideBack` | libshims/VectorImpl.cpp:107-113 | A stored byte size divides back to exactly the capacity it was computed from. |
| `SharedVector.CheckedCapacity` | libshims/VectorImpl.cpp:384-404 | The checked sums and products of `_grow` yield the grown capacity exactly if the allocator accepts its byte size. |
| `SharedVector.CapacityRules` | libshims/VectorImpl.cpp:387-401 | The capacities after growing and shrinking in numbers: half as much again plus one, at least four; twice the size, at least four; never below the size. |
| `SharedVector.VectorImpl.GrowSucceedsIff` | libshims/VectorImpl.cpp:375-448 | When `_grow` succeeds, in terms of room, owners, flags and memory before the call. |
| `SharedVector.BlitOpens` | libshims/VectorImpl.cpp:419-443 | Two copies into a fresh buffer and one move within the buffer open the same gap. |
| `SharedVector.BlitCuts` | libshims/VectorImpl.cpp:486-511 | The same for closing one. |
| `SharedVector.SharedBuffer.EditResize` | libshims/SharedBuffer.cpp:66-89 | The same cells in a buffer of the new size for the caller alone: this buffer or a copy, and how many cells were copied; null and unchanged exactly if there is no memory. |
| `SharedVector.VectorImpl.ReleaseStorage` | libshims/VectorImpl.cpp:364-373 | The other vectors stay a family, and the buffer is freed exactly if this was its last owner. |
| `SharedVector.VectorImpl.EditArray` | libshims/VectorImpl.cpp:86-105 | The vector owns its buffer alone, with the same contents, and no other vector changes; a buffer with one owner is not copied, and one given up keeps its items. |
| `SharedVector.VectorImpl.Relocate` | libshims/VectorImpl.cpp:407-436 | Both ways to a larger buffer open the same gap in the contents. |
| `SharedVector.VectorImpl.Grow` | libshims/VectorImpl.cpp:375-448 | All three storage paths open the gap element for element, the new capacity follows the growth rule, no other vector changes, the items moved are counted where they are copied; it fails or ends the process exactly under conditions known before the call, with or without memory. |
| `SharedVector.VectorImpl.Shrink` | libshims/VectorImpl.cpp:450-514 | All three storage paths make the same cut; the capacity halves, stays, or rises to four; no other vector changes; it gives up or ends the process exactly under two conditions that are known before the call. |
| `SharedVector.VectorImpl.Copy` | libshims/VectorImpl.cpp:50-57 | A copy shares the buffer, counts as one more owner and changes no contents. |
| `SharedVector.VectorImpl.Assign` | libshims/VectorImpl.cpp:68-84 | The vector has the right-hand side's contents and shares its buffer, self-assignment included, or has none if those are empty; no other vector changes. |
| `SharedVector.VectorImpl.FinishVector` | libshims/VectorImpl.cpp:290-295 | The vector lets go; the buffer is freed exactly if it was the last owner. |
| `SharedVector.VectorImpl.InsertArrayAt` | libshims/VectorImpl.cpp:115-139 | The contents are the splice of the items at the index, exactly unless `_grow` fails; errors leave them alone; all other vectors, even those that shared the buffer, are unchanged. |
| `SharedVector.VectorImpl.InsertSelfAt` | libshims/VectorImpl.cpp:115-134 | A vector inserted into itself: the items are doubled at the index exactly if growing succeeds and they can still be read where they were. |
| `SharedVector.VectorImpl.GrowBySelf` | libshims/VectorImpl.cpp:375-448 | After growing, the old pointer still shows the old items if and only if the buffer had another owner or the items stay where they are, clear of the gap. |
| `SharedVector.VectorImpl.InsertAt` | libshims/VectorImpl.cpp:141-159 | The same for copies of an item, or default items. |
| `SharedVector.VectorImpl.RemoveItemsAt` | libshims/VectorImpl.cpp:278-288 | The contents are cut, or unchanged with the same result exactly if `_shrink` finds no memory for a smaller buffer; a range beyond the end is refused. |
| `SharedVector.VectorImpl.ReplaceAt` | libshims/VectorImpl.cpp:250-276 | One item replaced in a buffer of the vector's own, by a copy of the prototype, by a default item, or by itself when it is its own prototype; only a shared buffer needs memory. |
| `SharedVector.VectorImpl.SetCapacity` | libshims/VectorImpl.cpp:332-352 | Contents kept; capacity as asked unless smaller than the size; the exact conditions of failure. |
| `SharedVector.VectorImpl.Resize` | libshims/VectorImpl.cpp:354-362 | A larger size keeps the items and adds default ones; a smaller one keeps the prefix, or everything although it reports the new size, exactly if there is no memory for a smaller buffer; the exact condition of success. |
| `SharedVector.VectorImpl.Push` | libshims/VectorImpl.cpp:235-238 | The item at the end, exactly unless `_grow` fails; all existing items were copied if the buffer was full or shared, and none otherwise. |
| `SharedVector.VectorImpl.PushAll` | libshims/VectorImpl.cpp:375-448 | n single pushes onto an empty vector give the n items and move at most 3n existing items in all, as counted by the copying itself. |
| `SharedVector.Sole` | libshims/SharedBuffer.cpp:91-97 | A count of one means that no other vector of the family has the buffer. |
| `SharedVector.SilentRemoval` | libshims/VectorImpl.cpp:278-288 | A removal from a vector of one item that reports index 0 and leaves the item. |
| `SharedVector.EmptyInsertion` | libshims/VectorImpl.cpp:125-134 | Three insertions of nothing: into an empty vector and behind a full buffer `NO_MEMORY`, in front of it success. |
| `SharedVector.SelfAppend` | libshims/VectorImpl.cpp:115-134 | A vector of one item appended to itself, which is undefined. |
| `SharedVector.SharedAppend` | libshims/VectorImpl.cpp:115-134 | The same with a copy that shares its buffer, which is sound. |
| `VectorSort.SortIsStable` | libshims/VectorImpl.cpp:171-222 | For every total preorder the sort gives an ordered permutation that keeps equal items in their order. |
| `VectorSort.StableSortIsUnique` | libshims/VectorImpl.cpp:171-175 | There is only one such result, so the sort is any stable sort. |
| `VectorSort.ShiftInsert` | libshims/VectorImpl.cpp:198-211 | The inner loop puts the item behind everything not greater and moves the rest up by one. |
| `VectorSort.Sort` | libshims/VectorImpl.cpp:166-222 | The code computes that sort in place, changes no other vector, and leaves the buffer shared if the items were in order already; failure leaves the contents alone. |
| `SortedVector.SplitIsUnique` | libshims/VectorImpl.cpp:597-621 | There is only one place that keeps the order. |
| `SortedVector.IndexOrderOf` | libshims/VectorImpl.cpp:597-621 | The binary search finds a match, or there is none and it gives that place. |
| `SortedVector.AddKeepsStrict` | libshims/VectorImpl.cpp:623-633 | `add` keeps strict order. |
| `SortedVector.AddMembers` | libshims/VectorImpl.cpp:623-633 | After `add` the item is there, items with its key are gone, and all others remain. |
| `SortedVector.RemoveMembers` | libshims/VectorImpl.cpp:670-677 | After `remove` exactly the items with other keys remain. |
| `SortedVector.RemoveKeepsStrict` | libshims/VectorImpl.cpp:670-677 | `remove` keeps strict order. |
| `SortedVector.AddAllKeepsStrict` | libshims/VectorImpl.cpp:635-650 | The element-wise merge keeps strict order. |
| `SortedVector.MergeAgreesIff` | libshims/VectorImpl.cpp:652-668 | The fast merge into a vector that is not empty keeps the order, and equals repeated `add` if and only if the vectors do not meet in a common key. |
| `SortedVector.BoundaryTwice` | libshims/VectorImpl.cpp:652-668 | For any three keys in order, merging the last two into the first two keeps the middle one twice, where repeated `add` keeps it once. |
| `SortedVector.TwoTwice` | libshims/VectorImpl.cpp:652-668 | So for 1, 2 and 3. |
| `SortedVector.Add` | libshims/VectorImpl.cpp:623-633 | The code adds as specified and returns the index of the item; it fails exactly where replacing cannot copy a shared buffer or `_grow` fails, and then changes nothing. |
| `SortedVector.Remove` | libshims/VectorImpl.cpp:670-677 | The index says whether the key was there; the item with it is gone, except exactly where `_shrink` gives up. |
| `SortedVector.MergeEach` | libshims/VectorImpl.cpp:635-650 | The code adds the items one by one, all of them or a prefix up to an addition that does fail. |
| `SortedVector.Merge` | libshims/VectorImpl.cpp:652-668 | The code computes the fast merge of another vector, without a change to any other, exactly unless growing or an addition fails; it compares with an item that is not there exactly if it merges something into an empty vector. |
| `SortedVector.EmptyReceiver` | libshims/VectorImpl.cpp:656-658 | Such a call. |
| `SortedVector.MergeEachSelf` | libshims/VectorImpl.cpp:635-650 | The element-wise merge of a vector into itself changes nothing, and the buffer it reads outlives it. |
| `SortedVector.MergeSelf` | libshims/VectorImpl.cpp:652-668 | The fast merge of a vector into itself changes nothing unless it has exactly one item, which is doubled in a shared buffer and undefined in one of its own. |
| `RilTimers.LessIsEarlier` | libril/ril_event.cpp:49-54 | The field-wise comparison orders instants. |
| `RilTimers.Plus` | libril/ril_event.cpp:37-47 | The carry keeps the instant and normal form. |
| `RilTimers.Minus` | libril/ril_event.cpp:56-66 | The borrow keeps the difference and normal form. |
| `RilTimers.ScheduledInOrder` | libril/ril_event.cpp:286-312 | Inserting a timer keeps the list ordered and complete, behind all earlier deadlines and in front of all others, so the newest comes first among equals. |
| `RilTimers.PrefixIsAllExpired` | libril/ril_event.cpp:158-180 | A timer is in the scanned prefix if and only if its deadline is before now. |
| `RilTimers.ScanTakes` | libril/ril_event.cpp:158-180 | A scan takes exactly the expired timers, in deadline order. |
| `RilTimers.NextGap` | libril/ril_event.cpp:215-238 | The wait is the exact gap to the least of all deadlines, or zero. |
| `RilTimers.RunKeepsAgenda` | libril/ril_event.cpp:158-312 | After every sequence of additions and scans the list is ordered and each timer added is either listed or taken, once. |
| `RilEvents.AddToList` | libril/ril_event.cpp:112-119 | Linking a node in front of any place of a circular list leaves a well-formed circular list with the node there. |
| `RilEvents.RemoveFromList` | libril/ril_event.cpp:121-131 | Unlinking likewise, with the node's links cleared. |
| `RilEvents.EventLoop.constructor` | libril/ril_event.cpp:241-249 | Empty lists and an empty table satisfy the invariant. |
| `RilEvents.EventLoop.EventSet` | libril/ril_event.cpp:252-262 | An event set up, new or used before, belongs to no list and no slot, and every other one keeps its place. |
| `RilEvents.EventLoop.EventAdd` | libril/ril_event.cpp:265-283 | If any slot is free, the event takes the first one that is, its `index` names it, and every other slot stays; if none is, nothing changes. `readFds` is exactly the watched descriptors and `nfds` is exact. |
| `RilEvents.EventLoop.RemoveWatch` | libril/ril_event.cpp:134-156 | The slot is free; the derived values stay exact although `nfds` is computed anew only when the maximum leaves. |
| `RilEvents.EventLoop.EventDel` | libril/ril_event.cpp:315-329 | A watched event leaves its slot; any other is left alone. |
| `RilEvents.WatchAdded` | libril/ril_event.cpp:265-283 | The new descriptor set and bound after an addition. |
| `RilEvents.WatchRemoved` | libril/ril_event.cpp:134-156 | Removing a descriptor that is not the maximum leaves the bound exact. |
| `RilEvents.ClearIsExactIff` | libril/ril_event.cpp:134-156 | Clearing the descriptor of one slot leaves exactly the watched ones set if and only if no other slot watches the same. |
| `RilEvents.EventLoop.TimerAdd` | libril/ril_event.cpp:286-312 | The walk puts the event where the ordered insertion says; without a time nothing happens. |
| `RilEvents.EventLoop.ProcessTimeouts` | libril/ril_event.cpp:158-180 | Exactly the expired timers move to the end of the pending list, in order; the rest stay. |
| `RilEvents.EventLoop.CalcNextTimeout` | libril/ril_event.cpp:215-238 | No timers, or the wait for the first. |
| `RilEvents.EventLoop.ProcessReadReadies` | libril/ril_event.cpp:182-200 | For every n: the ready watches of the slots swept become pending in table order, one-shot ones leave the table, it stops early only with n events and takes no more than n. |
| `RilEvents.ReadyCount` | libril/ril_event.cpp:182-200 | With distinct descriptors as many watches are ready as descriptors are reported. |
| `RilEvents.NoneMissed` | libril/ril_event.cpp:187-197 | A sweep that stops with that many has missed none. |
| `RilEvents.EventLoop.SweepAll` | libril/ril_event.cpp:182-200 | So every ready watch becomes pending; the slots of ready one-shot watches are free and all others as before. |
| `RilEvents.ReadyMembers` | libril/ril_event.cpp:182-200 | An event is ready exactly if it has a slot whose descriptor is reported. |
| `RilEvents.ReadyInOrder` | libril/ril_event.cpp:182-200 | Ready events stand in the order of their slots. |
| `RilEvents.EventLoop.Collect` | libril/ril_event.cpp:374-379 | The pending list of a pass is the expired timers in deadline order, then the ready watches in table order; all other timers and watches stay registered. |
| `RilEvents.EventLoop.Callback` | libril/ril_event.cpp:202-213 | Any calls a callback makes keep the invariant and the pending list. |
| `RilEvents.EventLoop.FirePending` | libril/ril_event.cpp:202-213 | Every pending event is fired once, first to last, whatever the callbacks do. |
| `RilEvents.EventLoop.Pass` | libril/ril_event.cpp:345-384 | One pass fires exactly the expired timers and then the ready watches, each once; a failed select fires nothing. |
| `SocketQueue.Queue.Enqueue` | libril/rilSocketQueue.h:120-134 | The node is the new front; nothing is lost. |
| `SocketQueue.Queue.Dequeue` | libril/rilSocketQueue.h:101-118 | The front comes out; the rest stay in order. |
| `SocketQueue.Queue.Unlink` | libril/rilSocketQueue.h:136-156 | The first node that matches is unlinked and no other; without a match nothing changes. |
| `SocketQueue.NoMatchBefore` | libril/rilSocketQueue.h:143-151 | No item in front of the one unlinked matches. |
| `SocketQueue.Queue.Update` | libril/ril.cpp:4158-4168 | A walk over the list changes every item and no link. |
| `RilRequests.StepKeepsInv` | libril/ril.cpp:443-5007 | Every callback keeps the books: a pending request is as it came in and cancelled exactly if its connection is gone; a completed one was answered exactly if it was not local and its connection was still there. |
| `RilRequests.RunKeepsInv` | libril/ril.cpp:443-5007 | So after every sequence of callbacks with fresh request identities. |
| `RilRequests.AnswersAreOwn` | libril/ril.cpp:4929-5007 | In every run each answer bears the token of one received request, went out on the connection that request came in on, and is the only answer to it. |
| `RilRequests.AnsweredIff` | libril/ril.cpp:4878-5007 | A request is answered if and only if some event received it, not as a local one, and the first completion after that came with no closing of the connection in between. |
| `RilRequests.AnswersSayFirst` | libril/ril.cpp:4969-4999 | Each answer is the word for a solicited response, the token of its request, the error of its first completion or what the response function made of it, and what that function wrote. |
| `RilRequests.ReceiveCases` | libril/ril.cpp:484-561 | A short command does nothing; one with a code below one or not in the table is refused and not taken; any other goes to the front of the list. |
| `RilRequests.RefusalsInOrder` | libril/ril.cpp:525-538 | In every run the packets that answer no request are exactly the refusals of unknown commands, each with its token and the generic failure, in the order the commands came. |
| `RilRequests.RunDone` | libril/ril.cpp:4929-5007 | What the books say of completed requests is what the first completion event of each found. |
| `RilRequests.SecondCompletion` | libril/ril.cpp:4929-4942 | Completing a request again changes nothing. |
| `RilRequests.Completions` | libril/ril.cpp:4929-4942 | Any number of completions of one request is as good as the first alone. |
| `RilRequests.VoiceRadioTechAnswersOnce` | libril/ril.cpp:1965-1987 | A handler that completes twice has the effect of its first completion: which error or value that is for each radio state. |
| `RilRequests.Dispatcher.ProcessCommandBuffer` | libril/ril.cpp:484-561 | Takes a request in, answers an unsupported one at once, ignores a short one. |
| `RilRequests.Dispatcher.IssueLocalRequest` | libril/ril.cpp:443-478 | Takes a local request in. |
| `RilRequests.Dispatcher.OnRequestComplete` | libril/ril.cpp:4929-5007 | Makes the completion step, with the error word rewritten if the response function fails. |
| `RilRequests.Dispatcher.OnCommandsSocketClosed` | libril/ril.cpp:4130-4172 | Cancels all pending requests. |
| `WakeLock.ReceiveKeeps` | libril/ril.cpp:5166-5312 | A message, with those it sends on its way, keeps the record pointed at alive, uncancelled and of the latest wake message, all other wake timers cancelled, and a held lock guarded by it. |
| `WakeLock.RunKeeps` | libril/ril.cpp:4556-5343 | So after every sequence of messages, timer requests and timer firings. |
| `WakeLock.QuietMessage` | libril/ril.cpp:5206-5312 | A message that does not wake changes nothing. |
| `WakeLock.History` | libril/ril.cpp:4556-5343 | In every run the number of wake messages that went through, those sent on the way included, and what is known of the radio are what the history says, and a record was made for each such message and each timer asked for. |
| `WakeLock.RecordLives` | libril/ril.cpp:4556-5343 | In every run the records that exist are exactly those made and not fired. |
| `WakeLock.LastIsLatest` | libril/ril.cpp:5291-5303 | In every run the record pointed at is the one made by the last step in which a wake message went through, exactly until it fires. |
| `WakeLock.NoneWithoutWake` | libril/ril.cpp:5206-5312 | In a run without such a step nothing is pointed at and the lock is free. |
| `WakeLock.HeldForLatest` | libril/ril.cpp:5291-5343 | While the lock is held, that timer is there and has not fired. |
| `WakeLock.OneInForce` | libril/ril.cpp:5293-5303 | At most one wake timer is not cancelled, and firing a cancelled one changes neither the lock nor the pointer. |
| `WakeLock.ReleasedIff` | libril/ril.cpp:5023-5312 | In every run a held lock is released by a step if and only if the step fires the timer of the latest wake message that went through, or is a wake message that leaves by the error exit. |
| `WakeLock.ErrorExitDropsEarlier` | libril/ril.cpp:5212-5312 | A run of two messages: the second fails and releases the lock of the first, whose timer is still in force. |
| `WakeLock.LockAfter` | libril/ril.cpp:5212-5226 | What a message does to the lock. |
| `WakeLock.NoticesSucceed` | libril/ril.cpp:2467-2593 | The three messages that processRadioState can send pass their response functions. |
| `WakeLock.RadioDecoded` | libril/ril.cpp:5031-5147 | What each radio state makes known: technology, subscription source and SIM status. |
| `WakeLock.NoticesCount` | libril/ril.cpp:5111-5147 | One message for each of the three values that is not what it was. |
| `WakeLock.ProcessIsNotices` | libril/ril.cpp:5111-5147 | What processRadioState does, nested calls included, is to note the new radio state and then to receive its messages. |
| `WakeLock.NestedIsSequential` | libril/ril.cpp:5111-5312 | A change of radio state, whose messages are sent while its own lock is held, equals those messages in sequence and then itself. |
| `WakeLock.Unsolicited.OnUnsolicitedResponse` | libril/ril.cpp:5166-5312 | The code makes that step, through its recursion. |
| `WakeLock.Unsolicited.ProcessRadioState` | libril/ril.cpp:5111-5147 | Notes the decoded state and sends a message for each part that changed. |
| `WakeLock.Unsolicited.ScheduleTimeout` | libril/ril.cpp:5293-5303 | The hand-over from the last timer to a new one. |
| `WakeLock.Unsolicited.TimedCallback` | libril/ril.cpp:5314-5343 | A new record, not cancelled, at a new address. |
| `WakeLock.Unsolicited.RequestTimedCallback` | libril/ril.cpp:5346-5350 | Makes the step of a timer asked for by the vendor library. |
| `WakeLock.Unsolicited.UserTimerCallback` | libril/ril.cpp:4556-4570 | Fires a timer: releases if it is in force, forgets it if it was the last, and frees it. |
| `Framing.BigEndianBack` | libril/ril.cpp:2438-2440 | The length header has the most significant byte first, and reads back. |
| `Framing.DecodeFrames` | libril/ril.cpp:2436-2455 | A reader recovers any sequence of packets from their frames, and the unfinished rest. |
| `Framing.Socket.Write` | libril/ril.cpp:2376-2381 | One call of write, from the code's own offset, is one legal step of the machine. |
| `Framing.Socket.BlockingWrite` | libril/ril.cpp:2368-2394 | For every schedule of partial writes and retries: all the data in order if the calls take that much before one fails, else exactly the prefix they took; after how many calls; and what it does is a legal run of the machine. |
| `Framing.EndsOnce` | libril/ril.cpp:2368-2394 | A schedule of calls allows one ending only: done, failed or still waiting, after so many calls. |
| `Framing.BothParts` | libril/ril.cpp:2438-2452 | A frame goes out exactly if the calls are enough for its header and the rest of them for its data. |
| `Framing.Socket.SendResponseRaw` | libril/ril.cpp:2396-2457 | Success exactly if there is a connection, the packet is within 8192 bytes and the calls suffice; an error only without one of these or after a failed call; a whole frame or a proper prefix of one. It continues any run of the machine by a legal one, and adds its packet to those sent exactly if it reports success. |
| `Framing.StepKeepsTail` | libril/ril.cpp:2436-2455 | Every step of any sender leaves whole frames and then at most the holder's part of one. |
| `Framing.ReaderGetsPackets` | libril/ril.cpp:2368-2457 | In every run, however writes are cut up and senders take the mutex, a reader gets exactly the packets sent, in order, and then at most the beginning of one frame. |
| `CdmaSms.RoundTrip` | libril/ril.cpp:1390-1468 | Reading what was written gives the message back: slot by slot what is below the count, zeros from there on; and takes exactly the words written, for every digit count and bearer length, negative and over the limit included. |
| `CdmaSms.EncodeLayout` | libril/ril.cpp:3950-4006 | Which word of the parcel holds what: the smaller of count and array size digits, none for a negative length, and how many words in all. |
| `CdmaSms.ReadIsWritten` | libril/ril.cpp:1390-1468 | Writing what was read from any parcel, if every read succeeded, gives the words read and as many, up to the padding of bytes. |
| `CdmaSms.StatusTellsAll` | libril/ril.cpp:1390-1456 | The status of the last read is good if and only if every read succeeded. |
| `CdmaSms.ParsedIsClean` | libril/ril.cpp:1390-1468 | Whatever the parcel, the message read has every slot from its count on zeroed, so it would be read back unchanged. |
| `CdmaSms.AddressBack` | libril/ril.cpp:1409-1428 | The round trip of the address. |
| `CdmaSms.SubaddressBack` | libril/ril.cpp:1430-1443 | The round trip of the subaddress. |
| `CdmaSms.BearerBack` | libril/ril.cpp:1445-1452 | The round trip of the bearer data. |
| `CdmaSms.ResponseCdmaSms` | libril/ril.cpp:3950-4006 | Writes exactly the words of the message, each in its place, or nothing and an error for a wrong response. |
| `CdmaSms.ConstructCdmaSms` | libril/ril.cpp:1390-1468 | The code reads as specified, with whatever its variables held before, and accepts exactly if every read succeeded; the words it took are then those of the message, each in its place. |
| `SapSocket.CompleteKeepsIff` | libril/RilSapSocket.cpp:298-332 | A completion leaves every header and node in exactly one place if and only if no request in front of its own has both its message id and its token. |
| `SapSocket.OtherStepsKeep` | libril/RilSapSocket.cpp:197-425 | Every other step does, out-of-memory paths included. |
| `SapSocket.RunConserves` | libril/RilSapSocket.cpp:197-425 | In every run that keeps the keys of pending requests apart, each header and each node ever allocated is in exactly one place: a queue, the loop, or freed. |
| `SapSocket.FreedOnce` | libril/RilSapSocket.cpp:197-425 | So nothing is freed twice. |
| `SapSocket.AllocatedIff` | libril/RilSapSocket.cpp:267-425 | In every run a header exists for each record there was memory for, and a node for each header queued or passed on, and no other. |
| `SapSocket.FreedForReason` | libril/RilSapSocket.cpp:197-425 | In every run a header was freed only because its record could not be decoded or queued, because it could not be passed on, or by its completion; a node only by the loop or by a completion with its key. |
| `SapSocket.CompletionFreesOwn` | libril/RilSapSocket.cpp:322-331 | A completion unlinks its own request and frees its own node and header. |
| `SapSocket.OwnPlace` | libril/rilSocketQueue.h:136-156 | The place a completion finds is its own exactly if no earlier request has its key. |
| `SapSocket.SharedKeyGoesWrong` | libril/RilSapSocket.cpp:298-332 | A run with two requests of one key in which the completed request stays pending with a freed header. |
| `SapSocket.StaleCompletion` | libril/RilSapSocket.cpp:324-331 | Completing a request that is not pending always breaks the conservation of headers. |
| `SapSocket.RilSapSocket.PushRecord` | libril/RilSapSocket.cpp:396-425 | Makes the step of an arriving record. |
| `SapSocket.RilSapSocket.FetchRequest` | libril/RilSapSocket.cpp:197-213 | Takes the newest request from the dispatch queue. |
| `SapSocket.RilSapSocket.DispatchRequest` | libril/RilSapSocket.cpp:267-296 | Passes the header on to the pending queue, or frees it without memory. |
| `SapSocket.RilSapSocket.ReleaseRequest` | libril/RilSapSocket.cpp:205-207 | Frees the request taken from the dispatch queue. |
| `SapSocket.RilSapSocket.CheckAndDequeue` | libril/rilSocketQueue.h:136-156 | Unlinks and frees the first pending node with the key. |
| `SapSocket.RilSapSocket.OnRequestComplete` | libril/RilSapSocket.cpp:298-332 | Makes the completion step, whether or not its key is pending. |

## Left out

- SharedVector.VectorImpl.RemoveItemsAt: an index and count whose sum exceeds `size_t` wrap around in the code; the model asks for a sum that does not.
- SharedVector.VectorImpl.Shrink: for items of a gigabyte and more the capacity of four that a tiny vector is given has a byte size beyond 32 bits, which the code lets wrap; the model stops with `Aborted` there.
- SharedVector.VectorImpl.InsertAt: the item is taken as it is before the call, so a reference to one of the vector's own items is not modelled; a whole vector inserted into itself is, by `SharedVector.VectorImpl.InsertSelfAt`.
- SortedVector.Merge: asks for two different vectors; `SortedVector.MergeSelf` and `SortedVector.MergeEachSelf` have the other case.
- `sizeof(SharedBuffer)` is taken as 16 and `size_t` as 32 bits: utils/SharedBuffer.h is not part of the repository, and the devices have 32-bit processors. `SharedBuffer::edit` and `reset` are not used by the vectors.
- Reference counts beyond 32 bits, the debug tracking of references, `renameRefId`, and the comparison operators of `wp`.
- RilEvents.EventLoop.EventAdd: asks for a descriptor that is not watched yet, since a second watch of one loses its bit when the first goes (`RilEvents.ClearIsExactIff`); the limit of `fd_set` is not modelled.
- RilEvents.EventLoop.TimerAdd: asks for an event in no list and no slot; a timer made of an event still watched would leave a slot without a descriptor.
- RilEvents.EventLoop.EventSet: asks for an event in no list and no slot, whose links the code clears without looking.
- Other threads that add or delete events between `select` and the sweep; each call is one step under the list mutex.
- The contents of requests and responses beyond CDMA SMS messages, the command tables, name tables, the translation of old unsolicited codes, property settings and logging.
- RilRequests.RunKeepsInv: excludes write failures and the closing of the socket by the debug port; request addresses are never reused.
- WakeLock.RunKeeps: takes each message and each timer firing as one step; the code takes no mutex around them.
- Framing.ReaderGetsPackets: after a write that fails for good nothing more is written; a new connection that gets the same descriptor number is not modelled.
- Numeric values of `RIL_E_*` and the CDMA array limits come from telephony/ril.h, which is not part of the repository: the former are those of the Android RIL interface, the latter are parameters.
- The payload memory, protobuf encoding, `sendResponse` and `sendDisconnect` of the SAP socket.
- Boot, lights, display, memory heap and key-check code: device I/O without a run-time invariant of this kind.

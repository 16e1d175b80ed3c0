# Verified core of light-rpc

A Dafny model of the parts of light-rpc that are hardest to get right, and
proofs of what they promise.

Concurrent protocols are step machines: a state, one action per atomic
operation of the source, and theorems about every run of any number of
threads. Sequential code that changes objects in place is written as classes
and methods, proved against specifications over byte sequences.

| file | models |
|---|---|
| `VersionedRef.dfy` | versioned reference counting of pooled objects, on the packed 64-bit word |
| `WorkStealing.dfy` | the work-stealing deque of the bthread scheduler |
| `RwLock.dfy` | the reader/writer lock built on a biased counter, two semaphores and a mutex |
| `WriteQueue.dfy` | the endpoint's lock-free write queue: exchange, unconnected links, reversal, hand-over of the write right |
| `BlockRefs.dfy`, `BlockStore.dfy`, `IoBuf.dfy`, `IoBufs.dfy` | IOBuf: block references, counted blocks, small and big view, and all buffers of a program together |
| `BlockPool.dfy` | the pool of registered memory: regions, buckets, spare lists and thread caches |
| `Sender.dfy` | segmentation into work requests, byte by byte, and the ring of posted buffers |
| `SendRing.dfy` | the same ring with writer, card, completion handler and acknowledgements interleaved: windows and selective signalling |
| `Framing.dfy` | cutting the control stream into frames |
| `Timer.dfy` | the timer thread: buckets, nearest run time, sleeping and unscheduling |
| `Butex.dfy` | the bthread futex: wait, the wakes, requeue and the erasers, for any number of butexes |
| `ButexWaiter.dfy` | how long a waiter on the stack of butex_wait lives, against wakers, timer and interrupters |
| `Semaphore.dfy` | the semaphore: a count in a butex |
| `MutexCond.dfy` | mutex and condition variable on top of it, with requeueing broadcast |
| `LockableId.dfy`, `SmallQueue.dfy` | lockable versioned ids with queued errors, and the queue they use |
| `IdList.dfy` | the list of ids with garbage collection |
| `Basics.dfy`, `Counting.dfy`, `BitMask.dfy` | options, bits, lists of waiters and rings; counting threads in a state; masking with a power of two |

## Model

| member | source | states |
|---|---|---|
| `VRefWord.BitsInjective` | inc/versioned_ref_with_id.h:74-85 | two (version, count) pairs with the same packed 64-bit word are equal, so comparing words compares both halves |
| `VRefWord.FetchAddIsAddition` | inc/versioned_ref_with_id.h:74-85 | adding 1 to the packed word adds 1 to the count and leaves the version alone, while the count stays below 2^31 |
| `VRefWord.FetchSubIsSubtraction` | inc/versioned_ref_with_id.h:74-85 | subtracting 1 from the packed word subtracts 1 from a positive count and leaves the version alone |
| `VersionedRef.NextKeepsInv` | inc/versioned_ref_with_id.h:356-584 | every atomic step of Create, Address, ReAddress, SetFailed, ReleaseAdditionalReference and Dereference keeps the invariant that ties word, references held and generations returned; any id may be looked up as long as an id that was never handed out does not match |
| `VersionedRef.LookupIsSafeExactly` | inc/versioned_ref_with_id.h:402-421 | a lookup that matches gets a pointer to a slot that is not in the pool, not in transit and of that generation, if and only if the id is even and, unless the generation has failed, one was created under it |
| `VersionedRef.ForgedIdHoldsAPooledSlot` | inc/versioned_ref_with_id.h:402-421 | the failing input: looking up version 0 before anything was created returns a pointer to a slot that is still in the pool |
| `VersionedRef.HeldIsNotRecycled` | inc/versioned_ref_with_id.h:402-455 | in every run, while any pointer to a generation is held the slot is not in the pool, not being recycled and not reused for another generation |
| `VersionedRef.ReturnedAtMostOnce` | inc/versioned_ref_with_id.h:528-577 | in every run no generation is returned to the pool twice, although several threads can see the count fall to zero |
| `VersionedRef.ReturnedUnreferenced` | inc/versioned_ref_with_id.h:422-455 | when the slot is handed back, every remaining reference is a transient one of a failed address attempt |
| `VersionedRef.VersionsGrow` | inc/versioned_ref_with_id.h:422-584 | along every run the version never decreases |
| `VersionedRef.SetFailedFails` | inc/versioned_ref_with_id.h:470-505 | in every run, when a call of SetFailed has returned, also the one of a Create whose initialisation failed, its generation has failed |
| `VersionedRef.ExactlyOneCallWins` | inc/versioned_ref_with_id.h:480-505 | of all the calls of SetFailed on a generation exactly one step fails it, if any of them has returned, and that call goes on to release the additional reference |
| `VersionedRef.NoAddressAfterSetFailed` | inc/versioned_ref_with_id.h:480-505 | once any call of SetFailed on a generation has returned, no address of its id whose fetch_add comes later succeeds |
| `VersionedRef.AddressSucceedsUntilFailed` | inc/versioned_ref_with_id.h:358-421 | after Create returned an id, a lookup succeeds if and only if nobody has failed the generation since; a lookup of failed objects too, if and only if it has not been recycled |
| `VersionedRef.FailedAndUnreferencedWillBeRecycled` | inc/versioned_ref_with_id.h:528-577 | a failed generation whose count is zero always has a thread about to succeed with the recycling exchange on exactly this word |
| `VersionedRef.FatalBranchesUnreachable` | inc/versioned_ref_with_id.h:440-453 | no run reaches the over-dereferenced, invalid-id or version-mismatch CHECK branches |
| `VersionedRef.QuiescentSlotIsSettled` | inc/versioned_ref_with_id.h:356-584 | when every call has returned and every pointer was dropped, a failed slot has been returned and the count is exactly the creation reference |
| `WorkStealing.NextRefines` | src-bthread/work_stealing_queue.h:72-135 | every atomic step of push, pop and steal does to an abstract bounded deque exactly what its outcome reports, and nothing in between; a steal that reports nothing leaves at most one item |
| `WorkStealing.RunIsADequeHistory` | src-bthread/work_stealing_queue.h:72-135 | every interleaved run is linearizable: call by call it reports what a sequential bounded deque would, but for a steal that misses the one item a pop has claimed |
| `WorkStealing.PushedIsReturnedPlusQueued` | src-bthread/work_stealing_queue.h:72-135 | in every run the multiset pushed equals the multiset returned plus what is queued |
| `WorkStealing.ReturnedAtMostOnce` | src-bthread/work_stealing_queue.h:92-135 | an item pushed once is returned at most once, and never while it is still queued |
| `WorkStealing.NoOverwriteUnderAWinningThief` | src-bthread/work_stealing_queue.h:72-86 | a push never writes the slot of a thief whose exchange can still succeed, across wrap-around of the ring |
| `WorkStealing.WinningThiefHasTheFront` | src-bthread/work_stealing_queue.h:117-135 | whenever a thief's exchange can still succeed, the value it read is the oldest item |
| `WorkStealing.OwnerNeverStuck` | src-bthread/work_stealing_queue.h:72-112 | in every state of the invariant an owner call in progress can take its next step |
| `WorkStealing.StealMissesOnlyAClaimedItem` | src-bthread/work_stealing_queue.h:117-135 | a steal reports nothing only when the deque is empty or holds just the item a pop in progress has claimed |
| `WorkStealing.PushesReportOnce` | src-bthread/work_stealing_queue.h:72-86 | in every run each push reports exactly once, in order and about its own item |
| `WorkStealing.PopsReportOnce` | src-bthread/work_stealing_queue.h:92-112 | in every run each pop reports exactly once |
| `WorkStealing.StealsReportOnce` | src-bthread/work_stealing_queue.h:117-135 | in every run each steal of each thief reports exactly once |
| `RwLock.NextKeepsInv` | src-bthread/rwlock.cpp:35-190 | every step keeps the balance between the biased reader count, the semaphores and the threads in each phase |
| `RwLock.Exclusion` | src-bthread/rwlock.cpp:35-132 | in every run a thread that holds the write lock excludes every reader and every other writer |
| `RwLock.UnlockPicksTheRightBranch` | src-bthread/rwlock.cpp:143-190 | rwlock_unlock reads the flag that belongs to the kind of lock its caller holds |
| `RwLock.ChecksNeverFail` | src-bthread/rwlock.cpp:59-132 | none of the lock's CHECKs fails in any run |
| `RwLock.AtMostOneToken` | src-bthread/rwlock.cpp:59-132 | an announced writer is posted at most one token, and only when every reader granted before it has departed |
| `RwLock.WaitingWriterIsServed` | src-bthread/rwlock.cpp:95-132 | while a writer waits for earlier readers, one of them can move or is inside its critical section |
| `RwLock.NoDeadlock` | src-bthread/rwlock.cpp:35-190 | if any call is in progress, some thread can move or is inside its critical section: no wakeup is lost |
| `RwLock.ReadLockReturnsReading` | src-bthread/rwlock.cpp:35-57 | rdlock gets the lock at once if and only if no writer is pending, and never comes back without it |
| `RwLock.TryReadRefusesOnlyForAWriter` | src-bthread/rwlock.cpp:59-74 | tryrdlock refuses if and only if a writer is pending, and otherwise reads as soon as its exchange finds the count it loaded |
| `RwLock.TryWriteRefusesOnlyForOthers` | src-bthread/rwlock.cpp:143-167 | trywrlock refuses if and only if another thread owns the writers' mutex or a reader has the lock or waits for it |
| `RwLock.WriteLockAndUnlockReturn` | src-bthread/rwlock.cpp:95-190 | wrlock never comes back without the lock, and unlock gives it up |
| `WriteQueue.NextKeepsInv` | src-endpoint/fast_rdma_endpoint.cc:948-1153 | every step of producers, the first writer, the background writer and the failure path keeps the invariant over list links, write right, pool and byte stream |
| `WriteQueue.OneWriter` | src-endpoint/fast_rdma_endpoint.cc:948-1077 | in every run at most one thread owns the write right, and none while it is parked for the handshake |
| `WriteQueue.ConsumedInExchangeOrder` | src-endpoint/fast_rdma_endpoint.cc:982-1077 | requests are consumed in exactly the order in which the run's actions exchanged them into the head, and each is returned at most once |
| `WriteQueue.WireIsAPrefix` | src-endpoint/fast_rdma_endpoint.cc:1018-1077 | the bytes sent are at every moment a prefix of the bytes that the run's actions wrote, in exchange order, as long as was reported sent: nothing is reordered, repeated or torn |
| `WriteQueue.QuiescentMeansDone` | src-endpoint/fast_rdma_endpoint.cc:948-1153 | when every call has returned, every request the run's actions wrote is back in the pool exactly once and, unless the endpoint failed, every byte was sent |
| `WriteQueue.HistoryIsTheActions` | src-endpoint/fast_rdma_endpoint.cc:948-1077 | the requests, bytes and lengths in the model's history are those of the run's actions |
| `WriteQueue.HealthyEndpointNeverFails` | src-endpoint/fast_rdma_endpoint.cc:974-1016 | in every run in which nobody fails the endpoint and no error is reported to it, it never fails on its own and throws no byte away |
| `WriteQueue.HealthyEndpointSendsEverything` | src-endpoint/fast_rdma_endpoint.cc:948-1077 | when every call of such a run has returned, the bytes sent are exactly those written, in exchange order |
| `WriteQueue.FailsExactlyWhenHarmed` | src-endpoint/fast_rdma_endpoint.cc:974-1153 | when every call has returned, the endpoint has failed if and only if somebody failed it or an error was reported to it |
| `WriteQueue.FailedEndpointIsMute` | src-endpoint/fast_rdma_endpoint.cc:974-980 | once the endpoint has failed and the calls of that time have returned, nothing is sent any more, whatever is written later |
| `WriteQueue.CompleteOnlyWhenEmpty` | src-endpoint/fast_rdma_endpoint.cc:1018-1050 | IsWriteComplete gives the write right up only when everything published was consumed and no producer still has a link to store |
| `WriteQueue.ChecksNeverFail` | src-endpoint/fast_rdma_endpoint.cc:948-1153 | no CHECK or DCHECK of the write queue fails in any run |
| `WriteQueue.SpinHasAProducer` | src-endpoint/fast_rdma_endpoint.cc:1018-1050 | whoever spins on an unconnected link has a producer between its exchange and its store |
| `BlockRefs.PushBytes` | src-common/fast_iobuf.cc:490-598 | appending a reference appends its bytes, merged with the last reference or not |
| `BlockRefs.MaskIsAt` | inc/fast_iobuf.h:61-69 | masking an index with the capacity minus one gives the ring position |
| `BlockStore.Store.ShareTlsBlock` | src-common/fast_iobuf.cc:990-1026 | for every thread the block handed out is the head of its own chain and has room, full blocks are given up, and no block that anybody else refers to and no other thread's chain is touched |
| `BlockStore.Store.DecRef` | inc/fast_iobuf_inl.h:171-194 | the last reference gives the block's memory back, any other leaves it, and no other block changes |
| `BlockStore.Frame` | src-common/fast_iobuf.cc:490-686 | what the holder of some references does, as long as it accounts for its own counts, leaves the counts and bytes of every other holder alone |
| `BlockStore.AfterAppend` | src-common/fast_iobuf.cc:371-398 | writing behind the last byte of the shared block extends the buffer by the bytes and preserves every block's earlier bytes |
| `IoBuf.IOBuf.PushBackRef` | src-common/fast_iobuf.cc:490-598 | across both views, conversion and growth the list of references gets the new one (merged if adjacent), the block's counter rises by a new reference or keeps the moved one, the ring doubles exactly when the list outgrows it, and the size stays exact under exactly the stated condition |
| `IoBuf.IOBuf.PopFrontRef` | src-common/fast_iobuf.cc:600-640 | the first reference is dropped or moved out across both views, wrap-around and fallback to the small view at two |
| `IoBuf.IOBuf.PopBackRef` | src-common/fast_iobuf.cc:645-684 | the last reference is dropped across both views and the fallback to the small view |
| `IoBuf.IOBuf.RefAt` | inc/fast_iobuf_inl.h:116-124 | the i-th reference of either view is the i-th of the abstract list |
| `IoBuf.IOBuf.Length` | inc/fast_iobuf_inl.h:64-67 | length() equals the sum of the reference lengths if and only if the buffer is exact: two lengths of the small view add up below 2^32, or the big view's sum was right when it was formed |
| `IoBuf.IOBuf.LengthOfContents` | inc/fast_iobuf_inl.h:59-67 | length() is the number of bytes contained if and only if the buffer is exact, and empty() is right unless a big view's sum is 0 |
| `IoBuf.IOBuf.ToBigView` | src-common/fast_iobuf.cc:531-546 | the big view has the three references, and its 32-bit sum is right if and only if the three lengths add up below 2^32 |
| `IoBuf.IOBuf.SkipSmall` | src-common/fast_iobuf.cc:106-118 | taking n bytes off the first reference leaves the tag word telling the small view if and only if the new offset is below 2^31 |
| `IoBuf.IOBuf.FourGigabytesLookLikeNone` | inc/fast_iobuf_inl.h:59-67 | the failing input: two references to 2 GiB each give length() 0 on a buffer that is not empty |
| `IoBuf.TagLost` | src-common/fast_iobuf.cc:106-118 | the failing input: taking 2 GiB off a reference to 3 GiB makes the buffer a big view without a ring |
| `BlockRefs.TagIsSafe` | inc/fast_iobuf.h:48-60 | every way to cut the front off a reference leaves the tag word non-negative if and only if the reference ends within 2^31 |
| `BlockRefs.ThirdIsExact` | src-common/fast_iobuf.cc:535 | any three lengths up to a limit add up in 32 bits if and only if the limit is at most 0x55555555 |
| `IoBuf.IOBuf.NoOverflow` | src-common/fast_iobuf.cc:535 | with blocks up to that limit no small view or conversion ever overflows |
| `IoBuf.IOBuf.Clear` | src-common/fast_iobuf.cc:70-95 | nothing is left and every block is given up as often as it was referenced |
| `IoBuf.IOBuf.PopFront` | src-common/fast_iobuf.cc:97-123 | the contents lose their first min(n, length) bytes and nobody else's counts or bytes change |
| `IoBuf.IOBuf.PopBack` | src-common/fast_iobuf.cc:125-150 | the contents lose their last min(n, length) bytes and nobody else's counts or bytes change |
| `IoBuf.IOBuf.CutInto` | src-common/fast_iobuf.cc:152-184 | the first min(n, length) bytes move from the front of one buffer to the end of the other, counts conserved |
| `IoBuf.IOBuf.CutBytes` | src-common/fast_iobuf.cc:213-245 | the bytes copied out followed by what remains are the old contents |
| `IoBuf.IOBuf.CopyTo` | src-common/fast_iobuf.cc:187-211 | the result is the window of at most n bytes from the position on, empty beyond the end, for every split into references |
| `IoBuf.IOBuf.AppendBuf` | src-common/fast_iobuf.cc:286-293 | the contents are concatenated, the other buffer is unchanged, and the shared blocks are counted again |
| `IoBuf.IOBuf.AppendSelf` | src-common/fast_iobuf.cc:286-293 | appending a buffer to itself doubles its contents if and only if its last reference does not end where its first begins, and a released ring is read if and only if the result outgrows the ring; counts are conserved |
| `BlockRefs.SelfAppendDoubles` | src-common/fast_iobuf.cc:286-293 | the same on lists of references, for every list: each reference is taken as it is when its turn comes |
| `IoBuf.IOBuf.AppendUserData` | src-common/fast_iobuf.cc:331-360 | the user's memory becomes the last block of the contents with its only reference, too much is refused, and every block somebody refers to keeps its bytes |
| `IoBuf.IOBuf.AppendMovable` | src-common/fast_iobuf.cc:295-314 | the contents are concatenated, the other buffer is empty, and the counts go along |
| `IoBuf.IOBuf.AppendBytes` | src-common/fast_iobuf.cc:371-398 | the bytes are appended, or a prefix of them when memory runs out, and every block somebody refers to keeps its bytes |
| `IoBuf.IOBuf.Equals` | src-common/fast_iobuf.cc:428-488 | the answer is equality of the contents, however they are split over references |
| `IoBuf.IOBuf.Copy` | src-common/fast_iobuf.cc:9-37 | a copy has the same contents and counts every block once more |
| `IoBuf.IOBuf.Assign` | src-common/fast_iobuf.cc:39-68 | after assignment both have the right-hand side's contents, the old references are given up first, and a ring of equal capacity is reused |
| `IoBuf.IOBuf.Swap` | inc/fast_iobuf_inl.h:52-57 | the two buffers exchange their references |
| `IoBufs.StepOne` | src-common/fast_iobuf.cc:97-260 | an operation on one buffer keeps every counter equal to the references in all buffers plus the holds of all threads, and keeps all other contents |
| `IoBufs.StepTwo` | src-common/fast_iobuf.cc:152-184 | the same for an operation on two buffers |
| `IoBufs.StepGrow` | src-common/fast_iobuf.cc:371-398 | appending into the shared thread block keeps the contents of every other buffer that refers to that block |
| `IoBufs.NothingLeaks` | src-common/fast_iobuf.cc:950-962 | when every buffer is empty and no thread has a chain, every block was given back |
| `IoBufs.Buffers.AppendBytes` | src-common/fast_iobuf.cc:371-398 | among all buffers exactly one grows, by the bytes appended, and all counters stay exact |
| `IoBufs.Buffers.AppendUserData` | src-common/fast_iobuf.cc:331-360 | among all buffers only the one that gets the user's memory changes, and all counters stay exact |
| `IoBufs.Buffers.CutInto` | src-common/fast_iobuf.cc:152-184 | among all buffers exactly two change, one losing what the other gains, and all counters stay exact |
| `IoBufs.Buffers.AppendBuf` | src-common/fast_iobuf.cc:286-293 | among all buffers only the one appended to changes, also when it is appended to itself, and all counters stay exact |
| `IoBufs.Buffers.AppendMovable` | src-common/fast_iobuf.cc:295-314 | among all buffers only the two involved change, and all counters stay exact |
| `IoBufs.Buffers.Assign` | src-common/fast_iobuf.cc:39-68 | among all buffers only the assigned one changes, assignment to itself changes nothing, and all counters stay exact |
| `IoBufs.Buffers.ThreadExit` | src-common/fast_iobuf.cc:950-962 | giving up one thread's chain changes no contents and no other thread's chain, and leaves no block at all once every buffer and every chain is gone |
| `Sender.CutIntoSgList` | src-endpoint/fast_rdma_endpoint.cc:1579-1605 | the gather entries are non-empty, within both limits, and together are exactly the bytes that moved from the request to the ring buffer; without an error the cut stops only at a limit or when the request is used up |
| `Sender.Gather` | src-endpoint/fast_rdma_endpoint.cc:864-882 | one work request takes its bytes off the front of the requests in order, within the remote block size and the gather limit, and is empty only when every request is |
| `Sender.SendQueue.CutFrom` | src-endpoint/fast_rdma_endpoint.cc:836-927 | the posted payloads followed by what remains are the original bytes; each is non-empty and within the limits; the call stops only when nothing is left or a window is closed |
| `Sender.SendQueue.Post` | src-endpoint/fast_rdma_endpoint.cc:908-923 | the new payload occupies a slot that no request in flight uses, and ring index, windows and signalling stay consistent |
| `Sender.SendQueue.Complete` | src-endpoint/fast_rdma_endpoint.cc:1514-1534 | a completion releases exactly the oldest payloads it stands for and opens the window by as many |
| `Sender.LaidPush` | src-endpoint/fast_rdma_endpoint.cc:918-920 | filling the next slot leaves every payload in flight untouched, across wrap-around |
| `Sender.LaidPop` | src-endpoint/fast_rdma_endpoint.cc:1523-1530 | clearing the oldest slot leaves every other payload in flight untouched, across wrap-around |
| `Sender.JoinedCut` | src-endpoint/fast_rdma_endpoint.cc:864-882 | behind used-up requests, cutting the next one takes bytes off the front of the whole sequence |
| `SendRing.NextKeepsInv` | src-endpoint/fast_rdma_endpoint.cc:836-923 | every interleaved step of the writer, the network card, the completion handler and the acknowledgement sender keeps windows, ring and queue in step |
| `SendRing.PickedSlotIsFree` | src-endpoint/fast_rdma_endpoint.cc:862-923 | in every run the slot the writer picks holds no buffers, and its window is never taken below zero |
| `SendRing.BuffersOutliveTheirRequests` | src-endpoint/fast_rdma_endpoint.cc:1510-1535 | in every run each data send still on the queue has its buffers in a slot: they are released only after the card is done |
| `SendRing.QueueNeverOverflows` | src-endpoint/fast_rdma_endpoint.cc:315-338 | in every run data sends and immediate-only sends together fit the send queue, and at most the reserved number are immediate-only |
| `SendRing.ClosedWindowReopens` | src-endpoint/fast_rdma_endpoint.cc:908-923 | in every run, while the send window is closed a signalled request is on the queue or its completion is being handled |
| `SendRing.DrainedWindowIsOpen` | src-endpoint/fast_rdma_endpoint.cc:1510-1535 | when everybody is done and the queue is empty, the window is open again but for the last sends that asked for no completion, only they keep buffers, and all reserved requests are free |
| `SendRing.WriterPostsWhileTheWindowIsOpen` | src-endpoint/fast_rdma_endpoint.cc:862-923 | the writer stops only at a closed window or with nothing to send; otherwise the next send goes onto the queue behind all others and takes one of the window |
| `SendRing.AckIsSentWhenReserved` | src-endpoint/fast_rdma_endpoint.cc:315-338 | an acknowledgement of its own is posted if and only if a reserved request is free |
| `Framing.DeframeMore` | src-endpoint/message_dispatcher.cc:16-29 | deframing may stop anywhere and go on with what was left; a broken header stays broken |
| `Framing.FeedIsDeframe` | src-endpoint/message_dispatcher.cc:31-58 | reading chunk by chunk gives the frames, the remainder and the verdict of the whole stream |
| `Framing.ChunkingDoesNotMatter` | src-endpoint/message_dispatcher.cc:31-58 | two chunkings of the same bytes give the same frames and the same verdict |
| `Framing.FramesComeBack` | src-endpoint/message_dispatcher.cc:16-58 | any chunking of well-formed frames followed by an incomplete one gives back exactly those frames in order and keeps the incomplete rest |
| `Framing.CutInputMessage` | src-endpoint/message_dispatcher.cc:16-29 | a whole frame moves to the frame buffer, and an incomplete or impossible one leaves the stream as it was |
| `Framing.ProcessNewMessage` | src-endpoint/message_dispatcher.cc:31-58 | the buffers handed out hold exactly the stream's frames in order, the buffer keeps the rest, and an impossible length always ends in an error |
| `BlockPool.Pool.Extend` | src-common/fast_block_pool.cc:185-252 | a new region adds exactly its own addresses to the spare lists, a part for each bucket, and only while there is room for a region, memory and a registration |
| `BlockPool.Pool.AllocateKind` | src-common/fast_block_pool.cc:282-364 | the block handed out is one aligned block of a region of its kind; every address stays on at most one list or in use; nothing is lost except, under exactly the stated condition, the nodes behind a larger one when a cache is filled; lists, spare lists, regions and cache change as stated and no others |
| `BlockPool.Pool.CacheMore` | src-common/fast_block_pool.cc:333-362 | filling a thread's cache divides the bucket's list into cache, list and what is lost, and loses everything behind a first node of more than one block |
| `BlockPool.LosingRun` | src-common/fast_block_pool.cc:282-364 | the failing run: one thread drains bucket 1 until a second region is added, and its first allocation from bucket 0 loses 256 MB |
| `BlockPool.Pool.Allocate` | src-common/fast_block_pool.cc:254-280 | the smallest kind that fits is used, and no bytes or more than 2 MB get nothing |
| `BlockPool.Pool.FindRegion` | src-common/fast_block_pool.cc:78-102 | the region found contains the address, and none is found only if none does |
| `BlockPool.Pool.Deallocate` | src-common/fast_block_pool.cc:396-466 | the block goes back to a cache or list of its kind, half of a full cache with it, and every address keeps its one place; an address outside all regions changes nothing |
| `BlockPool.Pool.RecycleAll` | src-common/fast_block_pool.cc:376-394 | at thread exit the cache is empty and every address keeps its one place |
| `BlockPool.Pool.BlocksInUseAreApart` | src-common/fast_block_pool.cc:254-364 | blocks in use never overlap |
| `BlockPool.Pool.UsedIsNotListed` | src-common/fast_block_pool.cc:254-466 | no address of a block in use is on a list or in a cache |
| `BlockPool.Pool.UsedIsAligned` | src-common/fast_block_pool.cc:185-252 | a block in use begins on a page and is exactly one block of its region |
| `Timer.NextKeepsDeadlines` | src-bthread/timer_thread.cpp:168-244 | every step of schedule and of the timer thread keeps every task's deadline announced to the thread |
| `Timer.NextKeepsTasks` | src-bthread/timer_thread.cpp:218-307 | every step of schedule, unschedule and the timer thread keeps the task versions, slots and the log of runs consistent |
| `Timer.NoMissedDeadline` | src-bthread/timer_thread.cpp:309-422 | in every run, while the timer thread sleeps, every scheduled task is due no earlier than it wakes, or a call of schedule is still on its way to wake it |
| `Timer.StopsOnlyWhenNothingIsDue` | src-bthread/timer_thread.cpp:356-386 | in every run the timer thread stops running tasks if and only if none in its heap is due; otherwise it turns to the earliest one |
| `Timer.PutOffOnlyForAnEarlierTask` | src-bthread/timer_thread.cpp:359-386 | a due task it turned to is put off only when a call of schedule announced an earlier time since the thread last pulled the buckets; otherwise it is the one run or found cancelled next |
| `Timer.ExchangeRunsOrSkips` | src-bthread/timer_thread.cpp:275-307 | a task not cancelled before the exchange has its function entered then and for the first time; a cancelled one never has |
| `Timer.ScheduledRunsUnlessCancelled` | src-bthread/timer_thread.cpp:168-307 | at any time after schedule accepted a task exactly one holds: its function was entered once, unschedule cancelled it, or it waits for its time in a bucket, a batch, the heap or the hand of the thread |
| `Timer.LogIsTheRun` | src-bthread/timer_thread.cpp:218-307 | the runs, cancellations and returns in the model's log are those of the run's steps |
| `Timer.RunsOnceOnTimeOrNever` | src-bthread/timer_thread.cpp:275-307 | in every run the function of a task that schedule accepted is entered at most once, never early and never after unschedule cancelled it, both read off the steps |
| `Timer.ReturnedExactlyOnce` | src-bthread/timer_thread.cpp:275-307 | in every run the slot of a task that schedule accepted goes back to the pool exactly once, after it was run or cancelled and before it is used again |
| `Timer.UnscheduleTellsTheTruth` | src-bthread/timer_thread.cpp:255-273 | in every run unschedule's answer is right: 0 means never entered, and cancelled now, 1 means running right now, -1 means entered or cancelled before |
| `Timer.ChecksNeverFail` | src-bthread/timer_thread.cpp:275-307 | no run reaches try_delete's CHECK or the impossible branch of run_and_delete |
| `Butex.NextKeepsInv` | src-bthread/butex.cpp:303-590 | every step of wait, wake, wake_n, wake_all, wake_except, requeue and the erasers keeps lists, containers and hands consistent, for any number of butexes |
| `Butex.ContainerIsTheList` | src-bthread/butex.cpp:459-543 | in every run a waiter's container names a butex exactly when the waiter is in that butex's list, once and in no other |
| `Butex.RemovedByExactlyOne` | src-bthread/butex.cpp:509-543 | in every run a waiter off its list and not yet runnable is in the hand of exactly one of the wakers, requeuers and erasers that raced for it |
| `Butex.WokenOncePerSleep` | src-bthread/butex.cpp:130-190 | in every run a waiter slept exactly as often as it was made runnable, plus once while it is asleep |
| `Butex.WakeAllLeavesNobody` | src-bthread/butex.cpp:330-396 | butex_wake_all empties the list, and as long as the value stays changed and nobody requeues onto the butex, no waiter for the old value is in it |
| `Butex.WakeOneTakesTheHead` | src-bthread/butex.cpp:303-328 | butex_wake takes the first waiter of the list and nobody else; no other list or hand changes |
| `Butex.WakeNTakesTheFirst` | src-bthread/butex.cpp:330-396 | butex_wake_n takes exactly the first n waiters, or all when n is 0 or more than there are; the rest stays in order |
| `Butex.WakeExceptLeavesOnly` | src-bthread/butex.cpp:402-457 | butex_wake_except takes everybody but the excluded waiter, and only that one can stay |
| `Butex.RequeueTakesTheHead` | src-bthread/butex.cpp:459-497 | butex_requeue takes the first waiter; the others go to the end of the other list in order |
| `Butex.EraseTakesOrIsLate` | src-bthread/butex.cpp:509-543 | erase_from_butex takes the waiter from the list it is in, and gives up only on one that is in none |
| `Butex.WaitQueuesOnTheExpectedValue` | src-bthread/butex.cpp:545-608 | butex_wait queues its caller if and only if the value is the expected one under the lock and the caller is not interrupted, at the end or at the front as asked |
| `Butex.WokenInOrder` | src-bthread/butex.cpp:330-457 | of two waiters taken together the one in front is woken first if and only if it is a pthread |
| `Butex.TakenAndLeft` | src-bthread/butex.cpp:303-457 | what each kind of wake takes and what it leaves together are the list, each waiter once |
| `Butex.OrderSame` | src-bthread/butex.cpp:330-457 | wake_n, wake_all and wake_except wake exactly those they took, each once, in whatever order of pthreads and bthreads |
| `MutexCond.NextKeepsInv` | src-bthread/mutex.cpp:54-99 | every step of lock, unlock, wait, signal, broadcast and interruption keeps the mutex word, the lists and the wakers' hands consistent |
| `MutexCond.AtMostOneHolder` | src-bthread/mutex.cpp:54-99 | in every run two threads never hold the mutex at the same time |
| `MutexCond.NoLostWakeup` | src-bthread/mutex.cpp:54-99 | in every run, while a thread sleeps on the mutex, also one moved there by a broadcast, the word says contended or somebody is on the way to wake or to mark it |
| `MutexCond.WaiterIsNotStranded` | src-bthread/mutex.cpp:54-99 | in every run a sleeping mutex waiter has somebody who can move or is inside the critical section |
| `MutexCond.RemovedByExactlyOne` | src-bthread/butex.cpp:459-543 | in every run a waiter is in at most one list, once, and one taken off is in the hand of exactly one waker or eraser |
| `MutexCond.WokenOncePerSleep` | src-bthread/butex.cpp:459-543 | in every run a thread slept exactly as often as it was made runnable, plus once while it is asleep |
| `MutexCond.BroadcastLeavesNobody` | src-bthread/condition_variable.cpp:72-84 | after a broadcast nobody who began to wait before it sleeps on the condition, then or ever |
| `MutexCond.BroadcastMovesEverybody` | src-bthread/condition_variable.cpp:72-84 | a broadcast takes the first waiter of the condition; the others go to the end of the mutex's list in order |
| `MutexCond.BroadcastSkipsNobody` | src-bthread/condition_variable.cpp:72-84 | a broadcast that returns at once, because no mutex is bound, does so only when no thread is inside cond_wait |
| `MutexCond.SignalTakesTheHead` | src-bthread/condition_variable.cpp:60-70 | a signal takes the first waiter of the condition, and returns without one only when nobody is queued |
| `MutexCond.UnlockTakesTheHead` | src-bthread/mutex.cpp:196-201 | an unlock that found the word contended takes the first mutex waiter, and goes on without one only when there is none |
| `MutexCond.TryLockTakesAFreeMutex` | src-bthread/mutex.cpp:182-184 | trylock takes the mutex if and only if nobody holds it |
| `MutexCond.LockTakesAFreeMutex` | src-bthread/mutex.cpp:54-99 | lock, at its first try and each time it comes back, takes the mutex if and only if nobody holds it |
| `MutexCond.UnlockFreesTheMutex` | src-bthread/mutex.cpp:196-201 | after unlock nobody holds the mutex |
| `MutexCond.LockAndWaitReturnHolding` | src-bthread/condition_variable.cpp:86-118 | neither lock nor cond_wait comes back without the mutex, whatever others do in between |
| `MutexCond.InterruptTakesOrIsLate` | src-bthread/butex.cpp:509-543 | an interruption takes a sleeper off its list, and gives up only on a thread that is in none |
| `SmallQueues.SmallQueue.Push` | src-bthread/id.cpp:34-99 | a push appends to the queue, in the inline ring or in the deque behind it |
| `SmallQueues.SmallQueue.Pop` | src-bthread/id.cpp:34-99 | a pop takes the oldest element, across the ring's wrap-around and the move out of the deque, and nothing exactly when the queue is empty |
| `LockableId.NextKeepsInv` | src-bthread/id.cpp:325-742 | every step of create, lock, unlock, unlock_and_destroy, about_to_destroy, error and cancel keeps the four numbers of the butex, its holder, its pending errors and its lockers consistent |
| `LockableId.AtMostOneHolder` | src-bthread/id.cpp:405-455 | in every run at most one thread holds the id, and then the butex says that it is locked |
| `LockableId.StatesAreOrdered` | src-bthread/id.cpp:325-382 | in every run the butex is one of the four numbers of the present incarnation, which are in order and fit in 32 bits |
| `LockableId.ErrorsInOrderBeforeUnlock` | src-bthread/id.cpp:709-742 | in every run the errors on_error was called with, followed by those pending, are exactly those that the run's actions raised with a valid version since creation, in order, and none is pending while the id is not locked |
| `LockableId.DeliveredToTheHolder` | src-bthread/id.cpp:567-607 | on_error is called with one error at a time, by the thread that then holds the id under its version |
| `LockableId.UnlockUnlocksOrDelivers` | src-bthread/id.cpp:567-607 | unlock unlocks the id if and only if every error raised so far was delivered; otherwise it delivers the next one |
| `LockableId.TryLockTakesAFreeId` | src-bthread/id.cpp:538-560 | trylock takes a valid id that nobody holds, and changes nothing otherwise |
| `LockableId.LockTakesAFreeId` | src-bthread/id.cpp:405-455 | a pass of lock takes a valid id that nobody holds, fails exactly on an invalid or about to be destroyed one, and goes to wait otherwise |
| `LockableId.AboutToDestroyStays` | src-bthread/id.cpp:462-487 | after about_to_destroy the id stays so marked until its holder unlocks or destroys it |
| `LockableId.CreatedIsValid` | src-bthread/id.cpp:325-403 | create makes exactly range versions valid, none of them one that was ended before, on an id that is unlocked and without errors |
| `LockableId.EndedIsRefused` | src-bthread/id.cpp:489-511 | in every run each version that was valid when the id was destroyed, or cancelled unlocked, is refused from then on until numbering starts again |
| `LockableId.GivenBackOnce` | src-bthread/id.cpp:609-640 | in every run a destroyed slot goes back to the pool once, before it is used again |
| `LockableId.ChecksNeverFail` | src-bthread/id.cpp:567-640 | in every run the holder's calls never find the id invalid or unlocked |
| `LockableId.StrandedExactlyWhen` | src-bthread/id.cpp:405-607 | from any state of the invariant, a step leaves more sleepers than wakeups on their way, with nobody bound to reach the rest, if and only if it is a losing unlock after about_to_destroy, a losing cancel, a losing sleep or a losing growth of the range, each given by what its caller could count before |
| `LockableId.NobodyIsLeftAsleep` | src-bthread/id.cpp:405-640 | in every run without those steps nobody is left asleep |
| `LockableId.SleepersHaveHelp` | src-bthread/id.cpp:405-640 | in every run, while somebody sleeps and nobody is stranded, some thread is about to wake, to mark, or holds a marked id |
| `LockableId.StrandedUntilHelpComes` | src-bthread/id.cpp:405-640 | stranded sleepers stay stranded until a locker takes or marks the id, a contended id is unlocked, about_to_destroy, destroy, an interruption, or the use of their version again |
| `LockableId.RegularRunsSleepRight` | src-bthread/id.cpp:405-455 | in every run in which no lock grows the range by exactly one while somebody is about to compare contended, and numbering does not start again under such a locker, nobody sleeps on a number that does not mean contended |
| `LockableId.IrregularRunsCanSleepWrong` | src-bthread/id.cpp:405-455 | and only in those: after such a step of any run, some continuation sends a locker to sleep on a number that does not mean contended |
| `LockableId.RegularRunsStrandExactlyWhen` | src-bthread/id.cpp:462-607 | in such runs a step strands sleepers if and only if it is a losing unlock or a losing cancel |
| `LockableId.UnlockAfterAboutToDestroyLoses` | src-bthread/id.cpp:462-607 | the failing run: about_to_destroy followed by unlock leaves a locker asleep on an unlocked id with nobody on the way |
| `LockableId.CancelLoses` | src-bthread/id.cpp:489-511 | the failing run: two sleepers, an unlock, a cancel and one wakeup leave one asleep on a slot in the pool |
| `LockableId.RangeResetLoses` | src-bthread/id.cpp:405-455 | the failing run: a lock that grows the range by one gives the number of contended a new meaning while another locker is about to compare it |
| `IdList.SplitAddsExactlyOne` | src-bthread/list_of_abafree_id.h:136-228 | splitting and scattering adds the new id once and loses no other, wherever the cursor is |
| `IdList.List.Add` | src-bthread/list_of_abafree_id.h:136-228 | add replaces an empty or dead id among the next four, splits, refuses a full list or collects garbage; ids that exist are never lost, and a successful add put the id in if and only if it did not collect garbage instead |
| `IdList.AddForgets` | src-bthread/list_of_abafree_id.h:136-228 | the failing run: a new list is filled with existing ids by add until it would collect, and adding an id that was never there succeeds without putting it in |
| `IdList.List.Collect` | src-bthread/list_of_abafree_id.h:231-299 | garbage collection keeps exactly the ids that exist, in order, in a list of the size they need, or changes nothing |
| `IdList.LiveCounts` | src-bthread/list_of_abafree_id.h:231-299 | the ids kept are those of the list that exist, each as often as it was there |
| `Semaphore.NextKeepsInv` | src-bthread/semaphore.cpp:25-83 | every step of wait, trywait, post, interruption and time-out keeps every sleeper beside a token covered by a poster that will wake everybody |
| `Semaphore.TokensAreConserved` | src-bthread/semaphore.cpp:25-83 | in every run the count and the waits and trywaits that returned 0 add up to the first value and what the run's actions posted |
| `Semaphore.WaitReturnsWithAToken` | src-bthread/semaphore.cpp:41-73 | wait comes back on its own only with a token, which it gets if and only if its exchange finds the count it loaded; it sleeps only at count 0 |
| `Semaphore.TryWaitRefusesOnlyAtZero` | src-bthread/semaphore.cpp:26-39 | trywait refuses if and only if it finds no token |
| `Semaphore.PostWakesTheFirst` | src-bthread/semaphore.cpp:75-83 | a post wakes exactly the first sleepers, as many as the count it found, or all when it found 0 |
| `Semaphore.NoLostWakeup` | src-bthread/semaphore.cpp:45-83 | in every run, while the count is positive and somebody sleeps, a poster whose fetch_add returned 0 is on its way to wake everybody |
| `Semaphore.QuietMeansNoToken` | src-bthread/semaphore.cpp:45-83 | when every call has returned or sleeps, nobody sleeps beside a token |
| `ButexWaiter.NextKeepsInv` | src-bthread/butex.cpp:545-608 | every step of butex_wait, the wakers, the timer's callback and interrupters keeps current_waiter, timer and list in step with the waiter on the stack |
| `ButexWaiter.NobodyOutlivesTheWait` | src-bthread/butex.cpp:711-727 | in every run no waker, timer callback or interrupter uses a waiter after its butex_wait returned |
| `ButexWaiter.NothingIsLeftBehind` | src-bthread/butex.cpp:711-727 | in every run, between two waits current_waiter is empty and no timer is pending |
| `ButexWaiter.SleeperHasOneWaker` | src-bthread/butex.cpp:545-608 | in every run a switched-out bthread is in the list or exactly one waker, interrupter or timer callback is on the way to make it runnable |
| `ButexWaiter.EraseWakesAQueuedWaiter` | src-bthread/butex.cpp:509-543 | an interruption or time-out that finds the waiter queued takes it off and makes the bthread runnable; one that comes late leaves it alone |

## Left out

- VersionedRef.NextKeepsInv: assumes fewer than 2^31 references at a time, no wrap-around of the 32-bit version, and that an id Create has not handed out does not match when it is looked up, which includes an id leaked from OnCreated; Revive is not modelled.
- WorkStealing.NextRefines: indices do not wrap at 64 bits, and memory is sequentially consistent.
- RwLock.NextKeepsInv: assumes fewer than 2^30 readers; the semaphores and the inner mutex are taken as atomic here (`Semaphore` and `MutexCond` have their steps), and the timed variants are left out.
- Semaphore.NextKeepsInv: fewer than 2^32 tokens; the butex operations are one step each.
- WriteQueue.NextKeepsInv: the large-transfer path, the handshake's own messages and memory orders are left out.
- BlockStore.Store.DecRef: giving memory back is the end of the block; whether the pool, free or the user's deleter gets it is left out.
- IoBuf.IOBuf.PushBackRef: references end within 2^31, the exact condition under which the tag word survives every later cut (`BlockRefs.TagIsSafe`); the 64-bit sum of the big view does not wrap.
- IoBuf.IOBuf.AppendUserData: user data between the store's limit and 2^32 - 101 bytes is accepted by the source and not covered; a reference to more than 2^31 bytes is not safe to cut (`IoBuf.TagLost`).
- IoBuf.IOBuf.PopFront: asks for a buffer whose length() is right; `IoBuf.IOBuf.Length` says exactly when it is.
- IoBuf.IOBuf.PopBack: asks for a buffer whose length() is right; `IoBuf.IOBuf.Length` says exactly when it is.
- IoBuf.IOBuf.CutInto: asks for a buffer whose length() is right; `IoBuf.IOBuf.Length` says exactly when it is.
- IoBuf.IOBuf.CutBytes: asks for a buffer whose length() is right; `IoBuf.IOBuf.Length` says exactly when it is.
- IoBuf.IOBuf.Equals: asks for two buffers whose length() is right; `IoBuf.IOBuf.Length` says exactly when it is.
- IoBuf.IOBuf.AppendSelf: when a released ring is read, the model reads what was there.
- IoBufs.Buffers.CutInto: blocks hold up to 0x55555555 bytes, the exact limit for sizes that are always right (`BlockRefs.ThirdIsExact`); a buffer is not cut into itself, nor appended to itself as a movable.
- IOBuf: resize, the zero-copy protobuf streams and the overlap in memory of the two views beyond the tag word are left out; whole operations on buffers, also of different threads, are interleaved, not their atomic counter updates.
- BlockPool.Pool.Deallocate: asks for the start of a block in use, or an address outside all regions.
- IoBuf.IOBuf.AppendMovable: a buffer is not appended to itself as a movable, and a big view's sum must not be 0.
- IoBufs.Buffers.AppendMovable: not to itself.
- IoBufs.Buffers.AppendUserData: sizes as for one buffer.
- BlockPool.Pool.AllocateKind: each call is one step, as its global part is under one lock; the idle_size statistics are left out.
- Sender.SendQueue.CutFrom: one call at a time, with the completions between calls; `SendRing` has the interleaving without the bytes. Receive credits in the immediate data, the solicited flag and everything after a failed registration or post are left out.
- Sender.SendQueue.Post: the sequential view of the ring; that the slot is free while completions are handled at the same time is `SendRing.PickedSlotIsFree`.
- Sender.SendQueue.Complete: the sequential view; the interleaved one is `SendRing.NextKeepsInv`.
- SendRing.NextKeepsInv: the remote window, the flush at failure and the number of receive buffers an acknowledgement stands for are left out.
- Framing.ProcessNewMessage: the handler threads themselves are left out.
- Timer.NextKeepsTasks: stopping the timer thread (`_stop`) and the wrap-around of the 32-bit task version are left out.
- Butex.NextKeepsInv: a timed wait is a wait that an eraser may end at any moment (`ButexWaiter` has the lifetimes); destruction of a butex and the choice of the woken bthread's worker are left out.
- ButexWaiter.NextKeepsInv: one bthread; a pthread's waiter, whose last use is the futex_wake after its signal, and a timer thread that is stopped are left out; erasing is one step (`Butex` has its retries).
- MutexCond.NextKeepsInv: one mutex and one condition; timed locks and timed waits are left out except as interruptions.
- LockableId.NextKeepsInv: one slot; bthread_id_join and its joiners are left out. Creation is one step, although it writes first_ver and then locked_ver without the mutex, so that at a restart of the numbering a stale locker can see the new first version with the old locked one.
- IdList.List.Add: the list's own lock is left out.
- Memory orders everywhere: atomics are sequentially consistent.
- Scheduling of bthreads, RDMA verbs, the large-transfer path, protobuf and everything above the endpoint.

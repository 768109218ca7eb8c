# Verified model of the WebASIO coroutine runtime

WebASIO runs C++20 coroutines on Boost.Asio. A coroutine that awaits something is resumed or
destroyed by whichever of two threads comes second, frames own their callers through move-only
handles, every frame carries a copied pointer to the executor it must run on, and everything is
allocated from thread-local caches that exchange blocks. This project models those four things
and proves what they are for.

**The handshake** (`Handshake*.dfy`). Any number of coroutines, suspensions and owners at once;
one event is one atomic exchange, one field access, one resume or one destroy, and all events of
all sides interleave freely. Ghost history, not the cell's value, carries the proof.
`HandshakeHistory.dfy` tells from the events alone which value, owner and fate a suspension ends
with, and `HandshakeProjection.dfy` ties it to the frame machine: every interleaving of a suspension
is a run of the machine.

**The frame machine** (`Programs.dfy`, `Frame*.dfy`). One task: a heap of frames linked leaf to
caller, the trampoline at the root, and the handler or running body that moves the task next.
Programs are arbitrary finite coroutine bodies with branches, try/catch, nested awaits, awaited
operations and timers, dispatch/post/defer hops and cancellation requests. The environment
chooses when and on which stack a handler runs, and whether it runs or is dropped. Using a frame
that is gone, setting a result twice or reading an unset one is a fault of the model; the proofs
show that no run has one. The reference definitions (plain evaluation, lookups along the chain)
recurse; the machine copies pointers and values as the C++ code does. Hops, executors and
cancellation requests are checked against what the events and the program text say
(`FrameHistory.dfy`), not against anything that the machine itself keeps.

**The cache** (`SizeClasses.dfy`, `CacheRows.dfy`, `CacheSystem.dfy`, `MemoryCache.dfy`). 64-bit
arithmetic with wrap-around, the object with its real two-dimensional array over a heap, and all
caches of a process over one heap, compared with a plain heap.

**The objects** (`Coroutines.dfy`, `Rendezvous.dfy`, `Outcomes.dfy`, `PromiseFrames.dfy`,
`Handlers.dfy`, `Cancellation.dfy`). The classes of the runtime with their fields updated in
place. What they decide goes through the functions that the machines use (`OnAwaiting`,
`OnCompleted`, `OnDropped`, `Effective`, `HandBack`, `EffectiveSlot`, the slot table of
`CacheRows`, `Registered`), so that each object method is tied to the proofs about whole runs.

Lemmas about a state `s` with `Inv(s)` or `Inv(s, goal)` speak of every reachable state and more:
`InitHolds` and `StepHolds` of `FramePreservation`, and `StepHolds` of `HandshakePreservation`,
prove that the invariants hold at the start and after every step.

## What the proofs found

- **Affinity depends on how dispatch behaves.** The cell does not record where the handler ran.
  If the handler of a hop runs before its initiator's exchange, the coroutine goes on where the
  initiator is. `AffinityExact` gives the exact condition for every run: all bodies run inside
  their own executors if and only if dispatch ran such early handlers only for initiators that were
  inside the target, as `inc/webasio/coro/dispatch.hpp:31-34` describes it. `DispatchIntoIdleStrand`
  is a run that breaks affinity when dispatch enters an idle strand inline. Operations and timers
  need no such assumption (`OperationLands`).
- **Strand exit depends on the static type and on the stack.** `set_executor` recognises a strand
  only while its type still has `get_inner_executor`. `InlineExitExact` says exactly when a caller
  can be resumed on its callee's stack, and so inside whatever strand the callee was in: the
  callee's last hop was not to a strand whose type says so, and the callee made no hop, or the
  caller has no executor, or the caller's executor is one that the stack is inside. Otherwise the caller
  restarts from a handler on its executor, or on the strand's inner one (`ExitElsewhere`). So a
  strand installed through `any_io_executor` is left, for a handler on the caller's executor, if
  the stack is not inside that executor; it need not be left if the stack is inside it
  (`UntypedStrandKept`) or if the caller has none (`UntypedStrandWithoutCallerExecutor`).
- **A dropped final hop leaves one frame behind.** The finished callee is then held only by a raw
  handle (`FinishedCalleeLeftBehind` is a run). `DestroyedExactlyOnce` proves at most one destruction per frame always, and an empty
  heap at the end if and only if no handler of a final hop was dropped.
- **A throwing initiation is safe exactly when its handler is already destroyed, unused**
  (`ThrowExact`): otherwise the result is set twice or the handler comes to a frame that has gone on.
- **Moving an unset `outcome<T>` leaves its tag uninitialised.** The move constructor of the union
  writes the new tag only when there is something to move. `MoveExact`: the moved-to outcome is a
  proper one, whatever its storage held before, if and only if the old one was set;
  `UnsetOutcomeMoved` is an input for which its destructor would destroy a member that was never
  constructed. The runtime moves an outcome only when the trampoline hands the root's result to the
  completion handler, and that result has always been set (`DeliveredWasStored`).
- **An executor-aware emit that is requested before any child joined reaches nobody**, even if
  children have joined by the time it runs: it captured the absence of the vector.

## Model

| member | source | states |
|---|---|---|
| HandshakePreservation.StepHolds | inc/webasio/coro/detail/resume_context.hpp:46-70 | every step of every side of every suspension keeps the invariant of all frames, suspensions and reference counts |
| HandshakeTheorems.NoRunFaults | inc/webasio/coro/detail/completion_handler.hpp:79-103 | over all interleavings no side touches an awaitable or frame after hand-off, resumes or destroys twice, sets a result twice or reads an unset one |
| HandshakeTheorems.ExactlyOneOutcome | inc/webasio/coro/detail/resume_context.hpp:46-70 | at most one of the four outcomes per suspension, and exactly one once neither side has anything left to do |
| HandshakeTheorems.SuspensionsEnd | inc/webasio/coro/detail/resume_context.hpp:38-43 | every event of a suspension strictly decreases its rank and no other event changes it, so both sides finish: no lost wake-up |
| HandshakeTheorems.NoConcurrentAccess | inc/webasio/coro/detail/deferred_awaitable.hpp:119-125 | the two sides never access the result or shared_this at the same time, and never for two suspensions of one frame |
| HandshakeTheorems.OwnerKeptAlive | inc/webasio/coro/detail/completion_handler.hpp:96-100 | a coroutine about to be resumed strongly holds its own live owner again; one that waits holds no strong reference |
| HandshakeTheorems.ReferencesConserved | inc/webasio/coro/detail/deferred_awaitable.hpp:119-125 | after any run an owner's count is exactly the number of references outside, in frames and in awaiters that have not returned |
| HandshakeHistory.DestroyedForCause | inc/webasio/coro/detail/completion_handler.hpp:49-54 | over every run each side destroys only if the handler was dropped or the owner is dead, and resumes a dropped suspension only with the initiation's exception |
| HandshakeHistory.DeedsAreEffects | inc/webasio/coro/detail/resume_context.hpp:46-70 | the outcomes that are counted are the events at which the coroutine really stopped waiting, by the side whose event it was |
| HandshakeHistory.ValueArrives | inc/webasio/coro/detail/completion_handler.hpp:79-81 | over every run a handler is invoked at most once or dropped, and a suspension resumed without a throwing initiation holds exactly the value of that invocation |
| HandshakeHistory.SuspendedAs | inc/webasio/coro/detail/completion_handler.hpp:42-47 | over every run a suspension is of the coroutine and of the kind, operation or plain hop, that it was made of |
| HandshakeHistory.OwnerIsGiven | inc/webasio/coro/detail/promise_frame.hpp:116-119 | over every run a running coroutine holds the owner it was started with, and each of its suspensions is to give that owner back |
| HandshakeTheorems.ThrowExact | inc/webasio/coro/detail/deferred_awaitable.hpp:111-117 | a throwing initiation can lead to no fault if and only if its handler was already destroyed unused |
| HandshakeTheorems.RudeThrowFaults | inc/webasio/coro/detail/deferred_awaitable.hpp:114-117 | the other direction, constructively: the run that faults after a throw that left a result or a handler behind |
| HandshakeTheorems.FineStepsRefineCoarse | inc/webasio/coro/detail/resume_context.hpp:46-70 | every fine step is invisible in, or is the matching move of, the atomic view of the cell that the frame machine uses: arriving, completing, completing for a dead owner, dropping, throwing |
| HandshakeProjection.InterleavingsAreMeetings | inc/webasio/coro/detail/resume_context.hpp:46-70 | what any interleaving does to a suspension whose initiation did not throw is, event by event, a legal run of the frame machine from any beginning meeting of that kind, with the same end, and the coroutine goes on with the meaning of the value the handler was invoked with |
| HandshakeProjection.ThrowsAreImmediate | inc/webasio/coro/detail/deferred_awaitable.hpp:114-117 | over every run, after a throwing initiation only its own thread acts on the coroutine, and goes on with it |
| FramePreservation.StepHolds | inc/webasio/coro/detail/promise_frame.hpp:101-221 | every event keeps the heap a chain of suspended frames with right copies and the same outcome to come |
| FrameMeaning.NoRunFaults | inc/webasio/coro/detail/promise_frame.hpp:216-220 | over all runs no frame is used or destroyed after it is gone, no outcome is set twice or read unset, no final suspension lacks a caller |
| FrameMeaning.MeaningPreserved | inc/webasio/coro/detail/promise_frame.hpp:48-65 | whatever reaches the root's completion handler is the outcome of plain recursive evaluation, under any interleaving |
| FrameMeaning.CompleteRunsDeliver | inc/webasio/coro/detail/await.hpp:40-50 | a run that can go no further has delivered the outcome of plain evaluation if nothing was dropped, and nothing otherwise |
| FrameMeaning.DoomedByDrops | inc/webasio/coro/detail/completion_handler.hpp:49-54 | a step dooms a task to deliver nothing exactly when it drops a handler |
| FrameMeaning.RunLength | inc/webasio/coro/detail/promise_frame.hpp:158-183 | every run from the start ends: it has at most eight events more than the size of the program text |
| FrameMeaning.NeverStuck | inc/webasio/coro/detail/promise_frame.hpp:186-188 | a task that is not over can always go on without anything being dropped |
| FrameAffinity.ExecutorAffinity | inc/webasio/coro/detail/promise_frame.hpp:158-183 | over all runs whose dispatch behaves as documented, a running frame with a non-null get_executor() runs inside it |
| FrameAffinity.AffinityExact | inc/webasio/coro/dispatch.hpp:59-68 | for every run: bodies always run inside their own executors, and the one that an initiator may be about to go on with will, if and only if dispatch behaved as documented |
| FrameAffinity.HopLands | inc/webasio/coro/dispatch.hpp:71-78 | given that dispatch behaves as documented, from a body on any stack, whatever happens after a hop until a body runs again: it is the same one, at the next statement with its locals, the target is its executor, its inner executor is set for a typed strand and cleared otherwise, and it is inside the target, on the stack of whoever took it on |
| FrameAffinity.QueuedHopLands | inc/webasio/coro/post.hpp:58-61 | with no assumption on dispatch: after post or defer nothing can happen but that the handler in the target's queue takes the body on, on its own stack, or is dropped |
| FrameHops.HopInlineExact | inc/webasio/coro/dispatch.hpp:59-68 | the thread that makes a hop can go on with the body itself if and only if the hop is a dispatch and the stack is inside the target |
| FrameAffinity.OperationLands | inc/webasio/coro/detail/completion_handler.hpp:117-143 | with no assumption on timing: until a body runs again after awaiting an operation or timer, it is the same one, with the outcome, its executor unchanged and inside it, on the stack of whoever took it on |
| FrameAffinity.CalleeRunsInline | inc/webasio/coro/detail/promise_frame.hpp:199-214 | an awaited coroutine runs at once on its caller's stack, from its beginning with its arguments and its caller's executor |
| FrameAffinity.RootRunsInline | inc/webasio/coro/detail/await.hpp:40-44 | a started task runs its root at once on the stack that starts it |
| FrameAffinity.ImmediateGoesOn | inc/webasio/coro/detail/timer_awaitable.hpp:70-73 | an operation that settles without suspending leaves its body running where it was, with the outcome and its executor |
| FrameAffinity.EarlyHopExact | inc/webasio/coro/dispatch.hpp:59-68 | after an early handler of a hop the coroutine goes on on the initiator's stack, inside its executor iff the initiator was |
| FrameAffinity.DispatchIntoIdleStrand | inc/webasio/coro/dispatch.hpp:59-68 | a concrete run that leaves a frame outside its strand when dispatch enters an idle strand inline |
| FrameAffinity.FinishAffine | inc/webasio/coro/detail/promise_frame.hpp:158-183 | final suspension resumes the caller inline only on a stack inside the caller's executor, if it has one; else by a handshake or a queue on that executor, or by the callee's inner executor if the caller has none |
| FrameStrands.InlineExitExact | inc/webasio/coro/detail/promise_frame.hpp:158-183 | for every callee at its end in every run, with hops read off the events: some continuation with dispatch as documented, in which only the callee's own thread acts on the caller, resumes the caller on the callee's stack, if and only if the callee's last hop was not to a typed strand and it made none, the caller's chain made none or the stack is inside the target of the caller's last hop |
| FrameStrands.ExitElsewhere | inc/webasio/coro/detail/promise_frame.hpp:165-178 | in every other case, over every run with dispatch as documented, the caller restarts only from a handler inside its own executor, or inside the strand's inner one if it has none, or is lost to a drop |
| FrameStrands.StrandExit | inc/webasio/coro/detail/promise_frame.hpp:163-180 | over every run a callee whose last hop was to a typed strand, and no other, leaves by a queue; the caller goes on on whatever stack the handler from it runs on, and the queue's executor itself has the strand around it only if the caller's executor is the strand or runs over it |
| FrameStrands.UntypedStrandKept | inc/webasio/coro/detail/promise_frame.hpp:132-140 | a concrete run and its continuation: a type-erased strand over the caller's executor, and the caller resumed inside it |
| FrameStrands.UntypedStrandWithoutCallerExecutor | inc/webasio/coro/detail/promise_frame.hpp:178-182 | a concrete run: a caller without an executor resumed inside its callee's type-erased strand |
| FrameOwnership.OneOwner | inc/webasio/coro/detail/promise_frame.hpp:105 | in every reachable state a frame has at most one owner, owners refer to live frames, caller links are acyclic, and the unowned frames are exactly those named |
| FrameOwnership.DestroyedExactlyOnce | inc/webasio/coro/unique_handle.hpp:116-120 | every frame ever allocated is live or was destroyed exactly once; at the end the heap is empty iff no final hop's handler was dropped, and holds at most one finished frame otherwise |
| FrameOwnership.StepLeaks | inc/webasio/coro/detail/promise_frame.hpp:165-180 | a step leaves a finished callee behind exactly when it drops the handler of a final hop |
| FrameOwnership.FinishedCalleeLeftBehind | inc/webasio/coro/detail/promise_frame.hpp:177-180 | a concrete run whose finished callee is left in the heap when the task is over |
| FrameResults.ResultsOnce | inc/webasio/coro/outcome.hpp:127-146 | over every run a frame stores its outcome at most once, holds one exactly from then on while it is in the heap, and a frame that stored one is either there or destroyed, once |
| FrameResults.DeliveredWasStored | inc/webasio/coro/detail/await.hpp:46-50 | over every run, what the trampoline moves to the completion handler was stored by the root, once |
| FrameHistory.ExecutorIsLastHop | inc/webasio/coro/detail/promise_frame.hpp:131-140 | over every run a frame's executor is the target of its last hop, and its inner executor the one under that target exactly if the target is a typed strand |
| FrameHistory.CopiesAreLookups | inc/webasio/coro/detail/promise_frame.hpp:142-151 | over every run get_executor() is the nearest last hop up the chain, caller_executor points at itself or at a strict ancestor with an executor, and slot, state and slot in effect are what the last requests of the frame and its ancestors ask for |
| FrameInvariant.DestroyTakesPath | inc/webasio/coro/unique_handle.hpp:116-120 | destroying the leaf destroys it and all its ancestors, in order and nothing else |
| SizeClasses.ClassExact | inc/webasio/memory_cache.hpp:29-37 | for every 64-bit size: cached iff 1 to 8192, with the least sufficient multiple of 64; 0 and sizes that wrap are not cached and are asked of the heap as they are |
| SizeClasses.AlignedIs | inc/webasio/memory_cache.hpp:29-32 | rounding up gives the next multiple of 64, and 0 exactly where it wraps |
| CacheRows.HolesDoNotMatter | inc/webasio/memory_cache.hpp:79-82 | alloc misses iff the class holds no block, free finds no room iff all 16 slots are full, whatever the holes |
| CacheRows.FreeThenAlloc | inc/webasio/memory_cache.hpp:99-104 | a block freed into an empty class is the next one allocated, and the table is then as before |
| CacheRows.EachDeletedOnce | inc/webasio/memory_cache.hpp:63-65 | destroying a table deletes exactly its blocks, each once |
| CacheRows.RetentionBound | inc/webasio/memory_cache.hpp:23-25 | one table retains at most 8,454,144 bytes |
| CacheSystem.StepHolds | inc/webasio/memory_cache.hpp:68-110 | every alloc, free, thread start and thread end over any number of caches keeps blocks sound, unshared and accounted for |
| CacheSystem.BlocksConserved | inc/webasio/memory_cache.hpp:68-110 | after any history the live blocks are the disjoint union of held and cached ones, each in one slot, of its class's exact size |
| CacheSystem.AllocIsFresh | inc/webasio/memory_cache.hpp:68-90 | after any history alloc returns a block that is neither held nor cached any more, large enough, from the heap or the thread's own cache, and moves no other block |
| CacheSystem.HeapAskedOnlyWhenEmpty | inc/webasio/memory_cache.hpp:74-89 | after any history alloc goes to the heap iff the size has no class or its class is empty, for the class's capacity or the size itself |
| CacheSystem.HeapRepaidOnlyWhenFull | inc/webasio/memory_cache.hpp:92-110 | after any history free keeps the block iff its class has a free slot, in the freeing thread's own cache, and else deletes just that block |
| CacheSystem.RetentionBounded | inc/webasio/memory_cache.hpp:113 | after any history no thread's cache retains more than 8,454,144 bytes |
| CacheSystem.ExitReturnsBlocks | inc/webasio/memory_cache.hpp:63-65 | after any history destroying a thread's cache gives back exactly its own blocks |
| CacheSystem.CachesRefineHeap | inc/webasio/memory_cache.hpp:124-152 | after any history every step of the caches is, for the program, a step of a plain heap |
| MemoryCache.Cache.constructor | inc/webasio/memory_cache.hpp:39-44 | the loops leave the table of null pointers |
| MemoryCache.Cache.Alloc | inc/webasio/memory_cache.hpp:68-90 | the search over the array takes the first block of the class or asks the heap for the right size, changing nothing else |
| MemoryCache.Cache.Free | inc/webasio/memory_cache.hpp:92-110 | the search over the array fills the first hole of the class or deletes, changing nothing else |
| MemoryCache.Cache.Destruct | inc/webasio/memory_cache.hpp:63-65 | the loops delete every cached block once and no other |
| Rendezvous.ResumeContext.ResumeAwaiting | inc/webasio/coro/detail/resume_context.hpp:46-57 | leaves awaiting; resumable iff the handler completed; destroys iff it was dropped |
| Rendezvous.ResumeContext.ResumeCompleted | inc/webasio/coro/detail/resume_context.hpp:60-63 | leaves completed; the handler may resume iff the awaiter was waiting |
| Rendezvous.ResumeContext.Destroy | inc/webasio/coro/detail/resume_context.hpp:66-70 | leaves destroyed; destroys iff the awaiter was waiting |
| Handlers.CompletionHandler.Invoke | inc/webasio/coro/detail/completion_handler.hpp:78-103 | the result is stored; the coroutine is resumed with its owner locked, destroyed because the owner is dead, or left to the awaiter |
| Handlers.CompletionHandler.Destruct | inc/webasio/coro/detail/completion_handler.hpp:49-54 | an unused handler destroys the coroutine iff the awaiter was waiting; a used one does nothing |
| Handlers.DeferredAwaitable.SetValue | inc/webasio/coro/detail/deferred_awaitable.hpp:75-98 | a non-null error code or pointer becomes the exception, anything else the value |
| Handlers.DeferredAwaitable.AwaitSuspend | inc/webasio/coro/detail/deferred_awaitable.hpp:109-126 | continues at once with result and owner iff the handler already ran; destroyed iff it was dropped; else suspended, owned by the handler, its own strong reference released |
| Handlers.DeferredAwaitable.AwaitSuspendThrowing | inc/webasio/coro/detail/deferred_awaitable.hpp:111-117 | continues at once with the initiation's exception as the result |
| Handlers.AwaitEarly | inc/webasio/coro/detail/deferred_awaitable.hpp:75-131 | a whole await whose handler runs first: a non-zero code or pointer is thrown, any other result is returned, and the owner is held as before |
| Handlers.AwaitLate | inc/webasio/coro/detail/completion_handler.hpp:78-103 | a whole await whose handler runs later: the same outcome, unless the coroutine held the last reference to its owner, and then it is destroyed |
| Handlers.DispatchHandler.Invoke | inc/webasio/coro/detail/dispatch_handler.hpp:59-65 | resumes iff the awaiter was waiting |
| Handlers.DispatchHandler.Destruct | inc/webasio/coro/detail/dispatch_handler.hpp:45-50 | destroys iff it still owned the coroutine and the awaiter was waiting |
| Handlers.DispatchAwaitable.AwaitSuspend | inc/webasio/coro/dispatch.hpp:59-68 | inline continuation iff the handler ran, destruction iff it was dropped, else the handler owns the coroutine |
| Handlers.PlainHandler.Invoke | inc/webasio/coro/detail/dispatch_handler.hpp:90-93 | a queued hop resumes its coroutine and gives up ownership |
| Handlers.PlainHandler.Destruct | inc/webasio/coro/detail/dispatch_handler.hpp:96 | a queued hop that never runs destroys its coroutine |
| PromiseFrames.PromiseFrame.GetExecutor | inc/webasio/coro/detail/promise_frame.hpp:142-145 | one pointer read gives the nearest executor of the frame or an ancestor |
| PromiseFrames.PromiseFrame.SetExecutor | inc/webasio/coro/detail/promise_frame.hpp:131-140 | the new executor and, for a typed strand only, its inner executor; the pointer stays right |
| PromiseFrames.PromiseFrame.Request | inc/webasio/coro/cancellation.hpp:319-349 | the slot in effect after each request; the executor is untouched |
| PromiseFrames.PromiseFrame.AwaitedBy | inc/webasio/coro/detail/promise_frame.hpp:199-214 | the callee owns its suspended caller and inherits its executor and its slot |
| PromiseFrames.PromiseFrame.FinalSuspend | inc/webasio/coro/detail/promise_frame.hpp:158-183 | gives up the caller and hands back by the nearest executor up the chain; the pointer is never null where it is dereferenced |
| PromiseFrames.PromiseFrame.Destruct | inc/webasio/coro/detail/promise_frame.hpp:104-112 | destroying a frame destroys every member its result ever had and the caller that it still owns, if any |
| PromiseFrames.PromiseFrame.AwaitResume | inc/webasio/coro/detail/promise_frame.hpp:216-220 | the caller gets the result; the callee, every member its result ever had and a caller it still owned are destroyed |
| PromiseFrames.PromiseFrame.Deliver | inc/webasio/coro/detail/await.hpp:46-50 | the set result of the root is moved to the handler intact, whatever the handler's storage held, and the root goes with every member its result ever had |
| Outcomes.SettledExact | inc/webasio/coro/detail/deferred_awaitable.hpp:75-98 | the exception e is set exactly for a leading code or pointer e other than 0, the value v exactly for the value argument without such a failure |
| Outcomes.Outcome.SetValue | inc/webasio/coro/outcome.hpp:126-131 | from unset only; exactly the value member becomes alive |
| Outcomes.Outcome.SetException | inc/webasio/coro/outcome.hpp:141-146 | from unset only; exactly the exception member becomes alive |
| Outcomes.Outcome.Get | inc/webasio/coro/outcome.hpp:153-163 | moves the value out, or what is left of it if it was moved out before, or rethrows; only a member that is there is read and it stays to be destroyed |
| Outcomes.Outcome.Destroy | inc/webasio/coro/outcome.hpp:209-222 | afterwards as many members were destroyed as were ever constructed |
| Outcomes.Outcome.Move | inc/webasio/coro/outcome.hpp:177-194 | the new tag is what the storage held unless the old outcome was set; the new outcome is proper exactly when its tag is the old one's, and then holds what that held, moved-from members included; the old one keeps its tag and a moved-from member |
| Outcomes.MoveExact | inc/webasio/coro/outcome.hpp:177-194 | the tag comes out right for every content of the storage if and only if the old outcome was set |
| Outcomes.UnsetOutcomeMoved | inc/webasio/coro/outcome.hpp:177-186 | an unset outcome, moved, that says it holds a value although no member was constructed |
| Coroutines.UniqueHandle.Release | inc/webasio/coro/unique_handle.hpp:142 | ownership goes to the caller and the handle is empty |
| Coroutines.UniqueHandle.Reset | inc/webasio/coro/unique_handle.hpp:134-138 | whatever was owned before is destroyed, never lost |
| Coroutines.UniqueHandle.Resume | inc/webasio/coro/unique_handle.hpp:144-145 | the coroutine runs and the handle no longer owns it |
| Coroutines.UniqueHandle.Destruct | inc/webasio/coro/unique_handle.hpp:116-120 | an owned coroutine is destroyed, an empty handle does nothing |
| Coroutines.UniqueHandle.Move | inc/webasio/coro/unique_handle.hpp:112-114 | one owner before, one owner after |
| Registry.RegistryIsTheLiving | inc/webasio/coro/cancellation.hpp:101-116 | over any history of construction and destruction the vector is the duplicate-free list of living children in construction order |
| Cancellation.Signal.constructor | inc/webasio/coro/cancellation.hpp:103-107 | a child joins at the end of its group's vector, made on first use |
| Cancellation.Signal.Destruct | inc/webasio/coro/cancellation.hpp:109-112 | erases this child and keeps the others in order |
| Cancellation.EmitAll | inc/webasio/coro/cancellation.hpp:135-136 | each registered child is told exactly once, nobody else is |
| Cancellation.MulticastCancellation.Emit | inc/webasio/coro/cancellation.hpp:142-149 | reaches each living child of the group exactly once, nobody if no child ever joined |
| Cancellation.MulticastCancellation.Request | inc/webasio/coro/cancellation.hpp:152-156 | an executor-aware emit captures the vector that the group has now, if any |
| Cancellation.EmitSignal.Run | inc/webasio/coro/cancellation.hpp:130-137 | reaches the children living when it runs, once each, iff the group had a vector when it was requested |

## Left out

- Boost.Asio itself: executors, queues, timers and operations are environment events that run or drop each handler at most once, on its associated executor.
- The lowering of coroutines by the compiler, and C++ memory ordering: exchanges are sequentially consistent, and awaiting follows [expr.await] of ISO C++20.
- The frame machine runs one task; other tasks appear as the environment. The handshake has any number of them.
- Unbounded bodies: programs are finite and have no loops, so that every run ends; recursion through co_await is bounded by the program text.
- Bodies that read their own executor, slot or cancellation state (`inc/webasio/coro/executor.hpp`): their outcome depends on the environment, not only on the program.
- Detached roots (`inc/webasio/coro/detached.hpp`): a root without a caller to hand a result to; only the trampoline of init_await is modelled.
- Which of post and defer queued a handler: both always queue, and no property depends on the difference.
- basic_timer_awaitable as an object: in the machines it is an operation whose initiation does not throw and that is skipped when already expired; as an object its await_suspend is DeferredAwaitable's without the catch.
- outcome<void> as a class of its own: it keeps no mark for "value set", so its set_value cannot detect a second call. Handlers without arguments, whose set_value stores nothing, belong to it.
- Move assignment of outcome (`inc/webasio/coro/outcome.hpp:116-123`) and `promise::get_awaitable` (`inc/webasio/coro/promise.hpp:50-53`): they name calls that the types do not have.
- Move assignment of unique_handle onto a non-empty handle, which forgets what was owned.
- Filters of the cancellation state and emission of the state's internal signal; the state is only a connected slot or none.
- Emits whose reactions construct or destroy children of the same group while the vector is being walked.
- operator new that fails, address alignment, and the usage statistics of the cache.
- PromiseFrames.PromiseFrame.Destruct: the caller that is destroyed with a frame is a coroutine without a frame of its own here; that destroying a leaf takes all its ancestors along is FrameInvariant.DestroyTakesPath.
- FrameAffinity.ExecutorAffinity: requires that dispatch behaves as documented; without that the claim is false, and AffinityExact is the equivalence.
- FrameStrands.StrandExit: about the last hop being to a strand with its static type; for every other callee InlineExitExact and ExitElsewhere say when the stack is left.
- `inc/webasio/net/ip/stream.hpp`, `inc/webasio/coro/main.hpp`, the logger and the small Asio adaptors: forwarding, start-up and output.

# A verified model of the reactor server's hand-written machinery

The server is an event loop in the style of muduo with data structures and protocols written
by hand. This project models eight of them in Dafny and proves what each is there for. System
calls, clocks and thread schedules are inputs of the model: a theorem about a run holds for
every answer of the kernel and every interleaving.

| part | value model and theorems | form the program keeps it in |
|---|---|---|
| LFU cache with ageing | `LfuModel`, `LfuInvariants`, `LfuTheorems`, `LfuThresholds`, `LfuReference` | `LfuCache`: nodes linked by `pre` and `next`, two maps, counters |
| event loop queue and wakeup | `EventLoopModel`, `EventLoopRuns` | `EventLoop` |
| slot allocator | `MemoryPool`, `MemoryPoolAlignment`, `MemoryPoolRuns` | `MemoryPool` (the class): free-list links live inside freed slots |
| database connection pool | `DbConnectionPoolModel` | `DbConnectionPool` |
| double-buffered log | `AsyncLoggingModel` | `AsyncLogging`, `FixedBuffer` |
| integer output | `Decimal` | `LogStream`: digits written and reversed in place |
| timer queue | `TimerQueueModel`, `TimerQueueWatch`, `TimerQueueRuns` | `TimerQueue`, with `Timer` objects |
| connection and its buffers | `TcpConnectionModel`, `TcpConnectionRuns` | `TcpConnection`, `Buffer` |

`Sequences`, `Arithmetic` and `Options` hold the facts that several parts share.

How the parts are built: a value model says what one operation or one critical section does
(`Next`, `Apply`, `Step`), invariants and theorems are proved about it, and a class whose fields
are written in place is proved, method by method, to do exactly that step. The classes give
their abstract value as `View()` or `Abs()`. History fields (`log`, `queued`, `kernel`, ...) record
what happened and influence nothing. The theorems of the `Runs` modules do not rest on them:
they say what the state must be from the calls of a run, their arguments, the answers of the
kernel, and the program's own variables.

## Results about the code

- `minFreq_` is exact for 2 <= `maxAverageNum` <= 250 and for no other threshold. With 0 or 1
  ageing subtracts nothing, with 251 or more the frequency a rescan looks for can reach
  `INT8_MAX` (`LfuThresholds.MinFreqExactIff`). At every capacity the same thresholds, and no
  others, make sure that `kickOut` finds a node (`LfuThresholds.EvictionsFindIff`).
- A timer that is already in the past when it is added, by as little as a microsecond, can make
  the queue forget another one; without such timers none is ever forgotten
  (`TimerQueueWatch.NoneForgottenIff`). The way there: the late timer is put in front while a
  reported firing waits for its handler, one batch takes both, the timerfd stays armed for
  nobody, goes off later between the two reads of `handleRead`, and takes a new timer's firing
  with it (`TimerCanBeLost`, `OvertakingLosesTimer`). What a caller can check is the guard on
  line 135 while a firing is reported (`TimerfdIsArmed`).
- Work queued by the owner before `loop()` can go unnoticed, and so can a `quit` before line 63 of
  `EventLoop.cc`; these are the only ways (`NoWorkIsLostIff`, `NoQuitIsLostIff`).
- The log line that triggers a rotation is not stored, although the comment on line 23 of
  `AsyncLogging.cc` only speaks of room. A run keeps everything exactly when every line found
  room (`NothingDroppedIff`); a line that an empty buffer would hold can be dropped
  (`LineIsDropped`).
- `shutdown` from another thread can half-close twice (`HalfClosedTwice`): a live connection has
  done so in exactly the runs that `TwiceIff` names, and after a close the queued turn can still
  be the second. From the loop thread it cannot (`HalfCloseAtMostOnce`).
- When the `shared_ptr` on line 55 of `DbConnectionPool.cpp` cannot be made, its deleter and the
  catch block both push the connection, and two callers can end up with it (`NoneSharedIff`).
  From then on, and only then, the connection is in two places (`OnePlaceEachIff`).
- All slots are aligned to eight bytes (`PaddingKeepsBase`). They are aligned to the slot size in
  every run exactly when that divides 2^64 (`SlotsAlignedIff`), that is, when it is a power of two
  (`DividesIff`); the padding of `padPointer` misses for the others (`PaddingMisses`).

Where comments and code disagree, the model follows the code: the sentry of
`TimerQueue::getExpired` finds the first entry later than now (the comment on line 86 says not
earlier); `Timer::restart` sets a one-shot timer to zero (the comment on line 6 of `Timer.cc`
speaks of extending it); `purge` keeps the counters (the comment on line 137 of `LFU.h` speaks of
all resources); the step in line 45 of `memoryPool.cc` divides by the size of a pointer (the
comment above it says the slot size).

## Model

| member | source | states |
|---|---|---|
| `LfuThresholds.MinFreqExactIff` | webserver/include/LFU.h:186-205 | for every non-zero capacity: the maintained `minFreq_` is the true least frequency in every reachable non-empty state if and only if 2 <= `maxAverageNum` <= 250; outside, a run that accesses one key shows the rescan falling back to 1 |
| `LfuThresholds.EvictionsFindIff` | webserver/include/LFU.h:197-216 | for every capacity above 0 that the keys can fill: in every reachable state a put that has to evict finds a node to evict, if and only if 2 <= `maxAverageNum` <= 250 |
| `LfuThresholds.MissedIsReachable` | webserver/include/LFU.h:247-304 | outside 2..250: a full cache whose keys all have a frequency of at least INT8_MAX while `minFreq_` is 1 is reachable |
| `LfuTheorems.RunKeepsInvariant` | webserver/include/LFU.h:104-142 | with 2 <= `maxAverageNum` <= 250, after every operation of every run: lists and map agree, `minFreq_` is exact and at most `maxAverageNum`, `curTotalNum_` bounds the live frequencies, the capacity is never exceeded |
| `LfuTheorems.StepKeepsInvariant` | webserver/include/LFU.h:104-142 | one put, get or purge keeps all of that, for every key, value and visiting order of the hash map |
| `LfuTheorems.HitKeepsInvariant` | webserver/include/LFU.h:180-193 | a hit keeps it: the `minFreq_++` shortcut is exact, also when an ageing pass follows |
| `LfuTheorems.InsertionKeepsInvariant` | webserver/include/LFU.h:197-206 | an insertion keeps it: 1 is the least frequency afterwards, also when an ageing pass follows |
| `LfuTheorems.AccessTotalConserved` | webserver/include/LFU.h:215-268 | for any thresholds and any run: `curTotalNum_` is the sum of the live frequencies plus exactly what ageing passes and purges took out, so never less than the sum |
| `LfuTheorems.StepKeepsStructure` | webserver/include/LFU.h:104-142 | every operation keeps lists and map in agreement, whatever the thresholds, and changes total minus live mass only by what ageing or purging takes |
| `LfuTheorems.EvictionTakesALeastKey` | webserver/include/LFU.h:197-216 | a put of a new key into a full cache removes exactly one other key; it has the least frequency and is the first of its list; all other bindings stay |
| `LfuTheorems.NeverStuck` | webserver/include/LFU.h:210-216 | under the invariant `kickOut` always finds a node, so every operation is defined for every proper visiting order |
| `LfuTheorems.BindingsKept` | webserver/include/LFU.h:104-128 | a get changes no binding; a put binds its key and changes no other binding that it keeps |
| `LfuTheorems.HitReturnsLatestPut` | webserver/include/LFU.h:104-142 | over any run and thresholds, a key that is found carries the value last put for it since the last purge; which keys are found is in the next two rows |
| `LfuTheorems.KeysAreKept` | webserver/include/LFU.h:104-216 | over any run and thresholds: the keys that are there were put since the last purge, and they are as many of those as the capacity allows |
| `LfuTheorems.NothingIsForgotten` | webserver/include/LFU.h:104-216 | over any run and thresholds: as long as all keys put since the last purge fit, exactly they are there, and a look-up gives the value last put or, for any other key, nothing |
| `LfuTheorems.TouchFacts` | webserver/include/LFU.h:180-189 | a hit raises one frequency by one, keeps lists and map in agreement, and moves `minFreq_` up exactly when the least frequency moved |
| `LfuTheorems.KickOutFacts` | webserver/include/LFU.h:210-216 | an eviction removes the victim only, and takes its frequency out of the total |
| `LfuTheorems.PlacedFacts` | webserver/include/LFU.h:196-203 | making room and placing a new node: which keys are mapped, at which frequency, and what it does to the total |
| `LfuTheorems.CountFacts` | webserver/include/LFU.h:247-258 | counting an access keeps keys and values; only an ageing pass changes frequencies, and only downwards |
| `LfuTheorems.CountingIs` | webserver/include/LFU.h:247-290 | counting an access, in plain numbers: if the accesses, this one included, are at least (maxAverageNum + 1) for each key, every frequency f becomes f - maxAverageNum/2, or 1 where that is not above 0; if they are fewer, no frequency changes |
| `LfuTheorems.AverageIsExact` | webserver/include/LFU.h:247-269 | in every run, as long as anything is cached: `curAverageNum_` is the accesses counted divided by the number of keys, cut off |
| `LfuTheorems.CountKeepsLeast` | webserver/include/LFU.h:247-303 | the averaging argument: counting brings a least frequency of at most M + 1 back to at most M, and a rescan finds it, for 2 <= M <= 250 |
| `LfuTheorems.LeastAtMostAverage` | webserver/include/LFU.h:252-255 | the least frequency is at most the average access count |
| `LfuThresholds.Climb` | webserver/include/LFU.h:104-193 | outside 2..250: any number of keys that fit, put once and then read in turn, can be brought to any frequency up to the last one a rescan still finds |
| `LfuThresholds.GetNext` | webserver/include/LFU.h:180-193 | one access of one of several keys at equal frequencies, with ageing that takes nothing off or is not yet due, and the rescan that misses them all at the end |
| `LfuInvariants.AgeingPass` | webserver/include/LFU.h:273-290 | an ageing pass takes maxAverageNum/2 off every frequency that stays at least 1 and sets every other to 1; it keeps keys, values and the order of frequencies, and leaves as `minFreq_` the least of the new ones, which exists, when that is below 127 and 1 otherwise |
| `LfuInvariants.AgeingEffect` | webserver/include/LFU.h:273-290 | the pass keeps lists and map in agreement, and what the least frequency becomes is again the least one |
| `LfuInvariants.AgeAllEffect` | webserver/include/LFU.h:275-285 | visiting the nodes in any order and moving each between lists ages each of them once and keeps lists and map in agreement |
| `LfuInvariants.RescanFinds` | webserver/include/LFU.h:294-304 | `updateMinFreq` yields the least frequency when that is below INT8_MAX, and 1 otherwise |
| `LfuInvariants.CanEvictIfExact` | webserver/include/LFU.h:212-214 | an exact minimum leads to a non-empty list whose first node is mapped and has that frequency |
| `LfuReference.CacheRefinesReference` | webserver/include/LFU.h:104-304 | every run of the cache is, step by step, a run of a reference with one map, attachment stamps, its own ageing arithmetic, no lists, no average and no maintained minimum: same bindings, frequencies and victims |
| `LfuReference.StepSimulates` | webserver/include/LFU.h:104-142 | one operation of the cache is the same operation of the reference |
| `LfuReference.VictimsAgree` | webserver/include/LFU.h:210-214 | the node `kickOut` takes is the key with the least frequency and, among those, the oldest attachment |
| `LfuReference.AgeAllSimulates` | webserver/include/LFU.h:275-285 | an ageing pass re-attaches the nodes in visiting order, as the reference stamps them |
| `LfuCache.FreqList.constructor` | webserver/include/LFU.h:41-46 | a new list is a chain of its two sentinels |
| `LfuCache.FreqList.IsEmpty` | webserver/include/LFU.h:49-51 | empty exactly when nothing stands between the sentinels |
| `LfuCache.FreqList.AddNode` | webserver/include/LFU.h:54-62 | the chain stays intact in both directions and the node is its last element |
| `LfuCache.FreqList.RemoveNode` | webserver/include/LFU.h:65-73 | the chain stays intact, without the node, whose links are null; an unlinked node is left alone |
| `LfuCache.FreqList.GetFirstNode` | webserver/include/LFU.h:77 | the oldest node, or the tail sentinel of an empty list |
| `LfuCache.LfuCache.StructureIsWellFormed` | webserver/include/LFU.h:173-175 | the pointer invariant says what the invariant on values says: list f holds exactly the mapped nodes of frequency f, each once |
| `LfuCache.LfuCache.ChainsApart` | webserver/include/LFU.h:24-38 | no node, sentinel or not, is in two lists |
| `LfuCache.LfuCache.RemoveFromFreqList` | webserver/include/LFU.h:220-229 | takes the node out of the list of its frequency and touches no other list |
| `LfuCache.LfuCache.RemoveFromList` | webserver/include/LFU.h:225-227 | the list loses that node, stays intact, and nothing outside it is written to |
| `LfuCache.LfuCache.AddToList` | webserver/include/LFU.h:54-62 | the list gains that node at its end, stays intact, and nothing outside it is written to |
| `LfuCache.LfuCache.AddToFreqList` | webserver/include/LFU.h:233-243 | puts the node at the end of the list of its frequency, made if it is missing |
| `LfuCache.LfuCache.GetInternal` | webserver/include/LFU.h:180-193 | on the heap: the value, the move to the next list, the minimum, the count |
| `LfuCache.LfuCache.CarryMinimum` | webserver/include/LFU.h:188-189 | moves the minimum up exactly when the node left an empty list at the minimum |
| `LfuCache.LfuCache.PutInternal` | webserver/include/LFU.h:197-206 | on the heap: room made, node mapped and listed, counted, minimum 1 |
| `LfuCache.LfuCache.KickOut` | webserver/include/LFU.h:210-216 | unmaps and unlinks the victim and lowers the total by its frequency |
| `LfuCache.LfuCache.AddFreqCount` | webserver/include/LFU.h:247-258 | counts an access and ages all nodes when the average exceeds its bound |
| `LfuCache.LfuCache.DecreaseFreqNum` | webserver/include/LFU.h:262-269 | lowers the total and recomputes the average |
| `LfuCache.LfuCache.HandleOver` | webserver/include/LFU.h:273-288 | moves every node to the list of its aged frequency while visiting the map, then rescans |
| `LfuCache.LfuCache.UpdateMin` | webserver/include/LFU.h:294-304 | the loop over all lists computes the specified minimum |
| `LfuCache.LfuCache.Put` | webserver/include/LFU.h:104-117 | the heap after a put is the one the value model gives, and well formed |
| `LfuCache.LfuCache.Get` | webserver/include/LFU.h:120-128 | the answer is the binding; the heap after a get is the one the value model gives, and well formed |
| `LfuCache.LfuCache.Purge` | webserver/include/LFU.h:138-142 | empties both maps; minimum, average and total stay as they were |
| `LfuCache.LfuCache.constructor` | webserver/include/LFU.h:93-98 | a new cache is the empty value |
| `LfuCache.Serve` | webserver/include/LFU.h:104-142 | for any sequence of requests to a new heap cache with 2 <= `maxAverageNum` <= 250: every precondition is met; each get answers the value last put for its key since the last purge, or nothing, and that only if it was not put or not all keys put since the last purge fit; and the heap follows a run of the model |
| `EventLoopModel.NoWorkIsLostIff` | webserver/src/EventLoop.cc:66-80 | the loop never blocks in poll with unannounced queued work, in any run, if and only if work queued before `loop()` was empty or announced |
| `EventLoopModel.NoQuitIsLostIff` | webserver/src/EventLoop.cc:61-66 | no run loses a stop request if and only if none was made before the loop was entered and none can be made by another thread while it is being entered, before line 63 resets `quit_` |
| `EventLoopModel.ForgottenQuit` | webserver/src/EventLoop.cc:61-80 | once `quit_` was reset after a stop request, the loop has a way on to blocking in poll with nobody to tell it |
| `EventLoopModel.FunctorsRunInOrder` | webserver/src/EventLoop.cc:110-168 | in every reachable state: functors run, then the rest of the batch, then the queue, are all functors ever queued, in push order |
| `EventLoopRuns.PushedRunInOrder` | webserver/src/EventLoop.cc:110-168 | in every run: the functors run, the rest of the batch and the queue are, end to end, what was queued at the entry followed by what the steps pushed, in order; and as many ran as there were steps that run one |
| `EventLoopRuns.StopRequestStops` | webserver/src/EventLoop.cc:61-66 | in every run: a stop request that came after line 63 and stands when line 66 tests it ends the loop; no functor runs any more, whatever is queued and whoever writes a wakeup |
| `EventLoopRuns.OnlyAStopRequestStops` | webserver/src/EventLoop.cc:61-66 | in every run: a loop that ended was asked to stop after line 63 reset `quit_` |
| `EventLoopRuns.OwnerWakesForBatch` | webserver/src/EventLoop.cc:110-122 | in every run: the owner writes one wakeup for each push it makes while a batch runs and none for any other, but for the one it is about to write |
| `EventLoopRuns.WhatStepsDo` | webserver/src/EventLoop.cc:61-168 | in every run: what was queued, how many functors ran, and whether `quit_` is set, from the steps alone |
| `EventLoopModel.SwappedWorkRunsInSameIteration` | webserver/src/EventLoop.cc:156-168 | whatever waits at the swap has run when the loop next tests `quit_`, and nothing else has |
| `EventLoopModel.WakeupRunsTheQueue` | webserver/src/EventLoop.cc:66-80 | from a blocked loop with a positive eventfd, the owner's own steps run all that is queued and empty the counter |
| `EventLoopModel.StepKeepsOrder` | webserver/src/EventLoop.cc:96-168 | every step of every thread keeps the queue's order, keeps queued work announced, and keeps stop requests announced unless they come before line 63 |
| `EventLoopModel.RunKeepsOrder` | webserver/src/EventLoop.cc:96-168 | the same over every run |
| `EventLoopModel.BatchRuns` | webserver/src/EventLoop.cc:156-168 | while a batch runs nothing leaves it but by running, and nothing joins it |
| `EventLoopObject.EventLoop.QueueInLoop` | webserver/src/EventLoop.cc:110-122 | the locked push, and when a wakeup has to follow |
| `EventLoopObject.EventLoop.Wakeup` | webserver/src/EventLoop.cc:133-140 | the counter rises and the caller is done |
| `EventLoopObject.EventLoop.Quit` | webserver/src/EventLoop.cc:96-99 | sets the flag; a foreign caller has to wake the loop |
| `EventLoopObject.EventLoop.HandleRead` | webserver/src/EventLoop.cc:124-130 | empties the counter |
| `EventLoopObject.EventLoop.DoAll` | webserver/src/EventLoop.cc:110-140 | everything that happens while one functor runs, by it or by other threads, step by step |
| `EventLoopObject.BatchEffect` | webserver/src/EventLoop.cc:156-168 | a batch runs whole and in order whatever happens meanwhile, and what is pushed is pending behind what was |
| `EventLoopObject.EventLoop.DoPendingFunctors` | webserver/src/EventLoop.cc:156-168 | the whole pass, with what functors queue and every step other threads take between their pushes, their quits and their wakeups, position by position: everything that was pending has run in order, what was queued meanwhile is pending in order, and a wakeup for it is written or on its way |
| `MemoryPools.SizeClassFits` | webserver/include/memoryPool.h:47-61 | the one index expression of `useMemory` and `freeMemory` gives, for sizes 1 to 512, a pool whose slot holds the size, and the smallest such pool |
| `MemoryPools.PaddingAlignsIff` | webserver/memory/memoryPool.cc:75-77 | in arithmetic modulo 2^64 the padded address is slot-aligned if and only if the subtraction does not wrap or the slot size divides 2^64 |
| `MemoryPools.PaddingMisses` | webserver/memory/memoryPool.cc:75-77 | 24-byte slots miss in every block whose body is a multiple of 24 already, as at 4096: the first slot is 16 bytes past one |
| `MemoryPoolAlignment.SlotsAlignedIff` | webserver/memory/memoryPool.cc:58-77 | for each of the 64 slot sizes: every live slot of every run is a multiple of the slot size if and only if that divides 2^64 |
| `MemoryPoolAlignment.DividesIff` | webserver/memory/memoryPool.cc:75-82 | of the 64 slot sizes exactly the seven powers of two divide 2^64 |
| `MemoryPoolAlignment.RunKeepsAligned` | webserver/memory/memoryPool.cc:26-73 | with such a size, every slot carved so far and the next one to be carved are aligned, over every run |
| `MemoryPools.PowersOfTwoDivide` | webserver/memory/memoryPool.cc:75-77 | slot sizes that are powers of two divide 2^64 |
| `MemoryPools.PaddingKeepsBase` | webserver/memory/memoryPool.cc:66-67 | the padding is a multiple of eight and leaves room for the header within one slot size |
| `MemoryPools.BlockYield` | webserver/memory/memoryPool.cc:58-71 | a 4096-byte block yields what fits between header and padding and its end: at least one slot less than 4096 / slotSize and at least seven, starting on a word boundary |
| `MemoryPools.StepKeeps` | webserver/memory/memoryPool.cc:26-73 | every legal call keeps the pool valid: blocks linked and apart, slots apart and inside their block past its header, free list acyclic and disjoint from live slots, every slot accounted for; and the reset of `freeList_` drops nothing |
| `MemoryPools.RunKeeps` | webserver/memory/memoryPool.cc:26-73 | every pool that legal calls lead to from a new pool is valid, and no slot was dropped |
| `MemoryPools.LegalCallExtends` | webserver/memory/memoryPool.cc:26-56 | after any run every legal call can be made, and is the specified step |
| `MemoryPools.AllocationIsFresh` | webserver/memory/memoryPool.cc:26-48 | an allocation hands out a slot nobody holds, apart from every live slot, inside a block and past its header |
| `MemoryPools.PoolWritesNoLiveSlot` | webserver/memory/memoryPool.cc:53-62 | free-list links and block links are written into no live slot |
| `MemoryPools.StepLeavesSlot` | webserver/memory/memoryPool.cc:26-73 | a live slot stays live and unchanged by every call but its own holder's |
| `MemoryPools.ContentsSurvive` | webserver/memory/memoryPool.cc:26-73 | between any two points of any run, the contents of a slot that was live survive everything but its own holder's calls |
| `MemoryPools.SlotsConserved` | webserver/memory/memoryPool.cc:26-73 | over any run: live + free + uncarved slots are the yield of all blocks, and none is dropped |
| `MemoryPoolRuns.LiveAreHeld` | webserver/memory/memoryPool.cc:26-56 | in every run: the live slots are exactly those that calls returned and that were not given back since |
| `MemoryPoolRuns.FreedIsReused` | webserver/memory/memoryPool.cc:28-56 | a slot given back is live no more and is what the next allocation returns; the two together leave live and free slots as they were |
| `MemoryPoolRuns.BlockOnlyWhenFull` | webserver/memory/memoryPool.cc:28-44 | an allocation links in a new block if and only if no slot is free and none is left to carve |
| `MemoryPoolRuns.WrittenIsRead` | webserver/memory/memoryPool.cc:26-73 | in every run: a word written into a live slot is there until its holder writes into the slot again or gives it back |
| `MemoryPoolRuns.StepLive` | webserver/memory/memoryPool.cc:26-56 | which slots a call makes live and which it ends, for every call |
| `MemoryPools.PopKeeps` | webserver/memory/memoryPool.cc:28-35 | taking the head of the free list keeps the pool valid |
| `MemoryPools.CarveKeeps` | webserver/memory/memoryPool.cc:43-45 | advancing the bump pointer keeps the pool valid, the new slot overlapping none |
| `MemoryPools.BlockKeeps` | webserver/memory/memoryPool.cc:58-73 | linking in a block keeps the pool valid and leaves room for a slot |
| `MemoryPools.FreeKeeps` | webserver/memory/memoryPool.cc:49-56 | pushing a live slot on the free list keeps the pool valid |
| `MemoryPools.WriteKeeps` | webserver/memory/memoryPool.cc:26-56 | a client writing into its own slot breaks no link |
| `MemoryPools.MemoryPool.constructor` | webserver/memory/memoryPool.cc:18-25 | a new pool of (i + 1) * 8 byte slots, the start of every run |
| `MemoryPools.MemoryPool.Allocate` | webserver/memory/memoryPool.cc:26-48 | the slot returned and the whole new state |
| `MemoryPools.MemoryPool.Deallocate` | webserver/memory/memoryPool.cc:49-56 | null is ignored; else the slot heads the free list, with the link in its first word |
| `MemoryPools.MemoryPool.AllocateNewBlock` | webserver/memory/memoryPool.cc:58-73 | links the block in, sets the bump range, and drops exactly what the free list held; the pool stays valid when the last block was used up |
| `MemoryPools.MemoryPool.Destroy` | webserver/memory/memoryPool.cc:7-17 | the walk along the block links releases every block once and ends |
| `DbConnectionPoolModel.StepKeepsPlaces` | Httpserver/Httpserver/src/utils/db/DbConnectionPool.cpp:18-72 | every step, as long as handles can be made, keeps every connection in exactly one place: the queue, one caller's check, or one outstanding handle |
| `DbConnectionPoolModel.StepKeepsWakeups` | Httpserver/Httpserver/src/utils/db/DbConnectionPool.cpp:37-71 | every step keeps: while a caller is blocked, at least as many are notified as there are connections queued, with barging callers, spurious wakeups, failing handles and an `init` that does not notify |
| `DbConnectionPoolModel.RunKeeps` | Httpserver/Httpserver/src/utils/db/DbConnectionPool.cpp:6-72 | both over every run in which handles can be made |
| `DbConnectionPoolModel.RunKeepsWaiters` | Httpserver/Httpserver/src/utils/db/DbConnectionPool.cpp:37-71 | the waiters' count over every run, also when making a handle fails |
| `DbConnectionPoolModel.NoSharingNoLoss` | Httpserver/Httpserver/src/utils/db/DbConnectionPool.cpp:6-72 | in every run in which handles can be made: no two handles, no two checks, no handle and check share a connection; and every connection created is in the queue, under check, or held |
| `DbConnectionPoolModel.OnePlaceEachIff` | Httpserver/Httpserver/src/utils/db/DbConnectionPool.cpp:55-71 | in every run, at every point: each connection is in exactly one place if and only if no handle has failed to be made so far |
| `DbConnectionPoolModel.StaysDoubled` | Httpserver/Httpserver/src/utils/db/DbConnectionPool.cpp:35-72 | no step ever gets a connection that is in two places back into one |
| `DbConnectionPoolModel.NoneSharedIff` | Httpserver/Httpserver/src/utils/db/DbConnectionPool.cpp:55-71 | no two callers ever hold one connection, in any run, if and only if making a handle cannot fail: the failing `shared_ptr` constructor runs the deleter and the catch block pushes once more |
| `DbConnectionPoolModel.WaitersAreServed` | Httpserver/Httpserver/src/utils/db/DbConnectionPool.cpp:37-46 | in every run: while a caller waits and a connection is queued, some notified caller can resume and takes the front one |
| `DbConnectionPoolModel.InitialisedIff` | Httpserver/Httpserver/src/utils/db/DbConnectionPool.cpp:6-23 | in every run: the pool counts as initialised if and only if some `init` went through without a throwing constructor, and its connections are those made by the calls of `init` up to that one |
| `DbConnectionPoolModel.TestIs` | Httpserver/Httpserver/src/utils/db/DbConnectionPool.cpp:39-46 | a caller under the mutex takes the front connection if there is one, waits if the pool is empty and initialised, and else leaves everything as it was |
| `DbConnectionPoolModel.FirstInFirstOut` | Httpserver/Httpserver/src/utils/db/DbConnectionPool.cpp:18-71 | in every run: the connections taken, followed by the queue, are the connections put in, new or given back, in order |
| `DbConnectionPoolObject.DbConnectionPool.Init` | Httpserver/Httpserver/src/utils/db/DbConnectionPool.cpp:6-23 | pushes the new connections in order; the flag is set afterwards exactly when it was set before or no constructor threw; a second call changes nothing |
| `DbConnectionPoolObject.DbConnectionPool.TakeOrWait` | Httpserver/Httpserver/src/utils/db/DbConnectionPool.cpp:39-45 | throws exactly when the pool is empty and not initialised, waits when it is empty, else takes the front |
| `DbConnectionPoolObject.DbConnectionPool.GetConnection` | Httpserver/Httpserver/src/utils/db/DbConnectionPool.cpp:35-46 | the first pass of a caller is the step of the model and keeps its invariant |
| `DbConnectionPoolObject.DbConnectionPool.WakeUp` | Httpserver/Httpserver/src/utils/db/DbConnectionPool.cpp:39-46 | a waiter that got the mutex back tests again, and never throws |
| `DbConnectionPoolObject.DbConnectionPool.HandOut` | Httpserver/Httpserver/src/utils/db/DbConnectionPool.cpp:55-62 | a passed check turns into a handle |
| `DbConnectionPoolObject.DbConnectionPool.MakeFailed` | Httpserver/Httpserver/src/utils/db/DbConnectionPool.cpp:55-62 | the deleter of a handle that could not be made puts the connection back and notifies |
| `DbConnectionPoolObject.DbConnectionPool.CheckFailed` | Httpserver/Httpserver/src/utils/db/DbConnectionPool.cpp:63-71 | a thrown check puts the connection back and notifies, before the exception goes on |
| `DbConnectionPoolObject.DbConnectionPool.Released` | Httpserver/Httpserver/src/utils/db/DbConnectionPool.cpp:57-61 | the deleter puts the connection back and notifies |
| `DbConnectionPoolObject.DbConnectionPool.Borrow` | Httpserver/Httpserver/src/utils/db/DbConnectionPool.cpp:35-72 | a whole call that finds a connection: with a handle the caller holds the front connection alone; without one it is back at the end of the queue |
| `AsyncLoggingModel.LogIsPrefixOfStored` | webserver/log/AsyncLogging.cc:21-71 | for any interleaving: the log followed by what is still in buffers is exactly the stored lines in order, so the log is a prefix of them |
| `AsyncLoggingModel.NothingDroppedIff` | webserver/log/AsyncLogging.cc:21-32 | in every run: the log with what is still in buffers is everything ever handed to `append`, if and only if at every non-empty line the capacity less the length of the current text was greater than the length of the line |
| `AsyncLoggingModel.LineIsDropped` | webserver/log/AsyncLogging.cc:24-31 | for every capacity of at least 2: a run of two appends drops the second line, though an empty buffer would hold it |
| `AsyncLoggingModel.StepKeeps` | webserver/log/AsyncLogging.cc:21-71 | every step keeps the stream; a missing standby buffer means a filled one exists; both spares are there at each loop head |
| `AsyncLoggingModel.BackEndProceeds` | webserver/log/AsyncLogging.cc:44-69 | the back end is never stuck: no move from a null spare and no `back()` of an empty vector |
| `AsyncLoggingModel.LineKeptIff` | webserver/log/AsyncLogging.cc:24-31 | one append: a non-empty line is stored if and only if more room is left than it needs; else nothing is stored, the text so far is queued behind the filled buffers, the current buffer is empty and the standby is used up |
| `AsyncLoggingModel.AppendKeepsStream` | webserver/log/AsyncLogging.cc:21-32 | an append stores its line at the end of the stream or only moves buffers |
| `AsyncLoggingModel.SwapKeepsStream` | webserver/log/AsyncLogging.cc:48-52 | the swap moves text without changing the stream |
| `AsyncLoggingObject.AsyncLogging.constructor` | webserver/log/AsyncLogging.cc:4-19 | four distinct empty buffers |
| `AsyncLoggingObject.AsyncLogging.Append` | webserver/log/AsyncLogging.cc:21-32 | on buffer objects: the line stored or the buffers rotated, each object still with one owner |
| `AsyncLoggingObject.AsyncLogging.Rotate` | webserver/log/AsyncLogging.cc:26-28 | the full buffer is queued; the standby object replaces it, or a new one when there is none |
| `AsyncLoggingObject.AsyncLogging.SwapOut` | webserver/log/AsyncLogging.cc:47-52 | the critical section of the back end, on buffer objects |
| `AsyncLoggingObject.AsyncLogging.WriteOne` | webserver/log/AsyncLogging.cc:55 | one buffer's used part goes to the file |
| `AsyncLoggingObject.AsyncLogging.Recycle` | webserver/log/AsyncLogging.cc:57-69 | two written buffers, emptied, become the spares; no buffer object has two owners |
| `AsyncLoggingObject.AsyncLogging.WriteAll` | webserver/log/AsyncLogging.cc:55 | the loop over the filled buffers writes all of them in order while the front end goes on |
| `AsyncLoggingObject.AsyncLogging.BackEndRound` | webserver/log/AsyncLogging.cc:44-70 | a whole round of the back end, with lines appended after every buffer: the file grows by exactly what was filled at the swap, in order, and both spares are in place again |
| `FixedBuffers.FixedBuffer.Append` | webserver/include/FixedBuffer.h:23-28 | takes the text whole when more room is left than it needs, and else nothing |
| `FixedBuffers.FixedBuffer.Add` | webserver/include/FixedBuffer.h:43-46 | position and size advance together |
| `FixedBuffers.FixedBuffer.Reset` | webserver/include/FixedBuffer.h:48-51 | empty again |
| `LogStreams.LogStream.FormatInteger` | webserver/log/LogSteam.cc:7-24 | appends the decimal text of any signed or unsigned 64-bit value when 32 characters are left, and else nothing; it never writes past the buffer |
| `LogStreams.LogStream.WriteDigitsUp` | webserver/log/LogSteam.cc:13-17 | the do-while loop ends and writes the digits least significant first, behind what was there |
| `LogStreams.LogStream.SignAndReverse` | webserver/log/LogSteam.cc:18-21 | sign, terminator and reversal in place give the text |
| `LogStreams.ReverseRange` | webserver/log/LogSteam.cc:20 | the stretch is reversed, the rest of the array untouched |
| `LogStreams.TableDigit` | webserver/log/LogSteam.cc:4-16 | the table, indexed from its middle by truncated remainders of either sign, gives the digit |
| `Decimal.TextRoundTrip` | webserver/log/LogSteam.cc:7-24 | the text is canonical (sign, no leading zero) and parses back to the number |
| `Decimal.TextFits` | webserver/include/LogStream.h:70 | every 64-bit value prints in at most 20 characters |
| `Decimal.DigitsParse` | webserver/log/LogSteam.cc:13-17 | digits are decimal, parse back, and start with no zero except for zero itself |
| `Decimal.SignedReversed` | webserver/log/LogSteam.cc:18-20 | digits upwards with the sign behind, reversed, are the text |
| `TimerQueueWatch.TimerfdIsArmed` | webserver/src/TimerQueue.cc:50-140 | in every run in which no timer is put in front (line 135) while a reported firing waits for its handler: whenever no batch is handled and a timer is set, the timerfd is armed for exactly max(earliest, armTime + 100us), or has gone off for a timer that is due; no batch is empty; and the first key is its timer's expiration |
| `TimerQueueWatch.NoneForgottenIff` | webserver/src/TimerQueue.cc:42-140 | no run forgets a timer, if its timers are at most `lag` microseconds in the past when they are added, if and only if lag <= 0 |
| `TimerQueueWatch.StepKeepsFine` | webserver/src/TimerQueue.cc:50-128 | every step but such an insertion keeps the timerfd from being armed for nobody, so that it cannot overtake its handler |
| `TimerQueueWatch.RunKeepsFine` | webserver/src/TimerQueue.cc:50-128 | the same over every run |
| `TimerQueueWatch.ArmedUnlessOvertaken` | webserver/src/TimerQueue.cc:50-112 | on top of `TimerfdIsArmed`, for runs with late timers: as long as the timerfd does not go off between the two reads of its handler for a timer later than the clock that was read, the earliest timer stays watched |
| `TimerQueueModel.CallbacksAreTimely` | webserver/src/TimerQueue.cc:83-128 | in every run: no callback before its expiration; two runs of one timer mean a repeating timer and more than its interval in seconds less one microsecond between them, so a one-shot timer runs at most once |
| `TimerQueueRuns.CallbacksAreOfTimers` | webserver/src/TimerQueue.cc:42-124 | in every run: there is one callback for each call, at its time, of a timer that was added, with the interval it was added with; it was due when the timer was added for, or one interval, cut to microseconds, after a restart |
| `TimerQueueRuns.NoTimerIsDropped` | webserver/src/TimerQueue.cc:42-128 | in every run: a timer that was added is still there, unless it was to run once and has run |
| `TimerQueueRuns.SetTimers` | webserver/src/TimerQueue.cc:42-128 | in every run, between handlers: every timer object is in the set, a one-shot timer there has not run, and one that has not run is there for the time it was added for |
| `TimerQueueRuns.RunKeepsTraces` | webserver/src/TimerQueue.cc:42-128 | in every run: each timer object goes back to the call that added it, and its expiration to that call or to a restart after a run |
| `TimerQueueModel.DeltaIsMicroseconds` | webserver/include/Timestamp.h:41-44 | what a repeating timer adds is its interval in microseconds, less than one short |
| `TimerQueueModel.DeltaOfSeconds` | webserver/include/Timestamp.h:41-44 | an interval of whole seconds is that many seconds, and no nanoseconds, in the units of the timerfd |
| `TimerQueueWatch.OvertakingLosesTimer` | webserver/src/TimerQueue.cc:114-118 | when the timerfd goes off between the two reads of `handleRead`, the earliest timer is left unwatched if and only if it is later than the clock that was read |
| `TimerQueueWatch.EarlyFiringLosesTimer` | webserver/src/TimerQueue.cc:114-118 | when the timerfd has gone off, the earliest timer is left unwatched if and only if its time has not come by the clock that is read |
| `TimerQueueWatch.TimerCanBeLost` | webserver/src/TimerQueue.cc:114-127 | a run from a new queue, with one timer a microsecond in the past when it is added, ends with a timer set, its time come, and nothing armed or pending |
| `TimerQueueModel.BatchIsExpired` | webserver/src/TimerQueue.cc:83-96 | a batch is exactly the entries with expiration <= now, in sorted order, and exactly the others stay |
| `TimerQueueModel.TimespecIsDelay` | webserver/src/TimerQueue.cc:64-71 | the itimerspec is never zero and equals the delay, which is at least 100us |
| `TimerQueueModel.StepKeepsKeys` | webserver/src/TimerQueue.cc:50-140 | every step keeps: set sorted, each key equal to its timer's stored expiration, each timer object in the set or in the batch and never in both |
| `TimerQueueWatch.StepKeepsWatch` | webserver/src/TimerQueue.cc:50-112 | every step that is no overtaking keeps the earliest timer watched |
| `TimerQueueModel.StepKeepsLog` | webserver/src/TimerQueue.cc:98-128 | every step keeps past runs due, spaced, and before the next expiration of their timer |
| `TimerQueueModel.RunKeeps` | webserver/src/TimerQueue.cc:50-140 | keys, timers and past runs stay in order over every run |
| `TimerQueueWatch.RunKeepsWatch` | webserver/src/TimerQueue.cc:50-112 | so does the watch on the earliest timer, absent overtaking |
| `TimerQueueModel.InsertFacts` | webserver/src/TimerQueue.cc:130-139 | insertion keeps the set sorted, adds one entry, and says which is first |
| `TimerQueueObject.Timer.Restart` | webserver/src/Timer.cc:3-8 | a repeating timer expires one truncated interval after now, another at zero |
| `TimerQueueObject.TimerQueue.Insert` | webserver/src/TimerQueue.cc:130-140 | the entry is in its place; true exactly when it is the strictly earliest |
| `TimerQueueObject.TimerQueue.AddTimerInLoop` | webserver/src/TimerQueue.cc:42-55 | the new timer joins the set and the timerfd follows if it is the earliest |
| `TimerQueueObject.TimerQueue.ResetTimerfd` | webserver/src/TimerQueue.cc:58-73 | the timerfd is armed, never disarmed, through seconds and nanoseconds |
| `TimerQueueObject.TimerQueue.LowerBound` | webserver/src/TimerQueue.cc:85-86 | the search with the sentry finds the first entry with expiration > now |
| `TimerQueueObject.TimerQueue.GetExpired` | webserver/src/TimerQueue.cc:83-96 | splits the set at that place |
| `TimerQueueObject.TimerQueue.TakeExpired` | webserver/src/TimerQueue.cc:116-118 | reads the timerfd and takes the batch |
| `TimerQueueObject.TimerQueue.RunCallback` | webserver/src/TimerQueue.cc:121-123 | one callback of the batch |
| `TimerQueueObject.TimerQueue.RunCallbacks` | webserver/src/TimerQueue.cc:119-124 | the loop over the batch records one run of each of its timers, in order |
| `TimerQueueObject.TimerQueue.PutBackOrDelete` | webserver/src/TimerQueue.cc:102-108 | a repeating timer is restarted and put back, another deleted, with no dangling pointer left in use |
| `TimerQueueObject.TimerQueue.ResetRound` | webserver/src/TimerQueue.cc:100-111 | one round re-arms for the stored expiration of the first timer, which is its key |
| `TimerQueueObject.TimerQueue.Reset` | webserver/src/TimerQueue.cc:98-112 | the whole loop takes the steps of the model, one round for each entry, and leaves no batch behind |
| `TimerQueueObject.TimerQueue.HandleRead` | webserver/src/TimerQueue.cc:114-128 | the whole handler: runs exactly the batch that was due, in order, at the times given, restarts or deletes each timer, keeps keys, timers and past runs in order, and leaves the timerfd on the earliest timer |
| `Buffers.Buffer.constructor` | webserver/include/Buffer.h:10-13 | 8 reserved bytes and the initial size, empty |
| `Buffers.Buffer.Append` | webserver/include/Buffer.h:41-45 | a byte queue: the contents grow by the data, whether the array has room, is compacted or grows; its size is as specified |
| `Buffers.Buffer.MakeSpace` | webserver/include/Buffer.h:58-71 | keeps the contents and makes the room asked for; grows only in the specified case |
| `Buffers.Buffer.Compact` | webserver/include/Buffer.h:66-69 | the overlapping forward copy keeps the contents |
| `Buffers.Buffer.EnsureWritableBytes` | webserver/include/Buffer.h:37-39 | keeps the contents and provides the room |
| `Buffers.Buffer.Retrieve` | webserver/include/Buffer.h:21-24 | drops that many bytes from the front, or all; empty means starting over |
| `Buffers.Buffer.RetrieveAsString` | webserver/include/Buffer.h:31-35 | what is returned and what stays are the old contents; asked for more than that, it reads on into stale bytes |
| `Buffers.Buffer.RetrieveAllAsString` | webserver/include/Buffer.h:30 | returns all and leaves nothing |
| `Buffers.Buffer.ReadFd` | webserver/src/Buffer.cc:15-47 | bytes scattered over the free room and the extra space end up in order behind the contents |
| `Buffers.Buffer.WriteFd` | webserver/src/Buffer.cc:49-53 | what the kernel accepts is a prefix of the contents, and the buffer is unchanged |
| `Buffers.GrowsOnlyWhenFull` | webserver/include/Buffer.h:64 | the array grows if and only if the readable and the new bytes do not fit behind the 8 reserved ones, and then by no more than what the new bytes need |
| `Buffers.ReadLimitBounds` | webserver/src/Buffer.cc:24-38 | one read can bring 64K, and the extra space is used for less than 128K in all |
| `TcpConnectionModel.NothingLostOrReordered` | webserver/src/TcpConnection.cc:48-95 | in every run: bytes the kernel accepted ++ bytes waiting == all taken sends end to end; bytes delivered ++ bytes in the input buffer == bytes received; while connected, write interest exactly while bytes wait |
| `TcpConnectionRuns.StreamsAre` | webserver/src/TcpConnection.cc:48-164 | in every run, with no flag of the model's own: bytes the kernel accepted ++ bytes waiting == the data, end to end, of all sends made while connected, except those that went straight to a peer that was gone; the kernel accepted as many as its answers say; bytes delivered ++ bytes in the input buffer == bytes read, and as many were delivered as the message callback took |
| `TcpConnectionRuns.ConnIs` | webserver/src/TcpConnection.cc:97-174 | in every run: connected if and only if established and not shut down, closed, destroyed or at the end of the stream since; disconnected if and only if the stream ended, the connection hung up, or it was destroyed while connected; connecting if and only if never established |
| `TcpConnectionRuns.EndOfStream` | webserver/src/TcpConnection.cc:128-137 | a read of no bytes leaves the connection disconnected, without write interest, and the streams as they were |
| `TcpConnectionRuns.StepMoves` | webserver/src/TcpConnection.cc:48-164 | which bytes each step adds to the stream, and how many it brings to the kernel |
| `TcpConnectionRuns.StepConn` | webserver/src/TcpConnection.cc:97-174 | which steps change the state, and to what |
| `TcpConnectionRuns.StepReads` | webserver/src/TcpConnection.cc:128-137 | which bytes each step brings in, and how many the message callback takes |
| `TcpConnectionModel.NoWriteAfterHalfClose` | webserver/src/TcpConnection.cc:97-107 | in every run: once the writing half was closed on a live connection the kernel has every byte ever taken, and nothing is taken or written afterwards |
| `TcpConnectionModel.HalfCloseAtMostOnce` | webserver/src/TcpConnection.cc:97-107 | in every run of the loop thread alone the writing half is closed at most once |
| `TcpConnectionModel.HalfCloseAfterDrain` | webserver/src/TcpConnection.cc:104-156 | it is closed only with the buffer drained and every taken byte accepted |
| `TcpConnectionModel.HalfCloseIsNotForgotten` | webserver/src/TcpConnection.cc:97-156 | in every run: shutting down with nothing left to write means it was closed, or another thread's shutdown is about to |
| `TcpConnectionModel.SecondHalfCloseIff` | webserver/src/TcpConnection.cc:104-107 | one turn of the queue: it half-closes a second time if and only if bytes waited at the shutdown and none wait now |
| `TcpConnectionModel.TwiceIff` | webserver/src/TcpConnection.cc:97-156 | in every run: a live connection has half-closed at most twice, and twice if and only if another thread shut it down while bytes waited and what that queued got its turn with nothing left to write |
| `TcpConnectionModel.HalfClosedTwice` | webserver/src/TcpConnection.cc:97-156 | a run from any new connection that half-closes twice |
| `TcpConnectionModel.CallbacksIff` | webserver/src/TcpConnection.cc:63-95 | the high-water callback is queued exactly when a step takes the buffer from below the mark to it or above; write-complete exactly when everything has gone out; nothing else is |
| `TcpConnectionModel.KernelOnlyGrows` | webserver/src/TcpConnection.cc:57-164 | what the kernel accepted is only ever appended to |
| `TcpConnectionModel.StepKeeps` | webserver/src/TcpConnection.cc:48-174 | every step, of the loop thread or of another thread's shutdown, keeps conservation, write interest and half-close |
| `TcpConnectionModel.SendConserves` | webserver/src/TcpConnection.cc:57-95 | a send under any outcome of its write conserves the stream |
| `TcpConnectionModel.WriteConserves` | webserver/src/TcpConnection.cc:144-164 | so does writing from the buffer |
| `TcpConnectionModel.OverForGood` | webserver/src/TcpConnection.cc:48-174 | once disconnected, or drained while shutting down, nothing is taken or written any more |
| `TcpConnectionObject.TcpConnection.constructor` | webserver/src/TcpConnection.cc:23-32 | a new connection is connecting, with empty buffers |
| `TcpConnectionObject.TcpConnection.ConnectEstablished` | webserver/src/TcpConnection.cc:110-113 | connecting becomes connected |
| `TcpConnectionObject.TcpConnection.Send` | webserver/src/TcpConnection.cc:48-53 | on the real buffers: only a connected one takes data |
| `TcpConnectionObject.TcpConnection.SendInLoop` | webserver/src/TcpConnection.cc:57-95 | on the real buffers: the direct write and what is kept of the rest |
| `TcpConnectionObject.TcpConnection.WriteNow` | webserver/src/TcpConnection.cc:63-78 | the direct write happens only when nothing waits; EPIPE and ECONNRESET fault the send, other errors do not |
| `TcpConnectionObject.TcpConnection.KeepRest` | webserver/src/TcpConnection.cc:86-94 | the rest joins the buffer, write interest is on, high water is announced on crossing |
| `TcpConnectionObject.TcpConnection.HandleWrite` | webserver/src/TcpConnection.cc:144-164 | a partial write drops what went out; the last byte turns interest off and half-closes if asked |
| `TcpConnectionObject.TcpConnection.Shutdown` | webserver/src/TcpConnection.cc:97-102 | only a connected one shuts down; in the loop at once, elsewhere queued |
| `TcpConnectionObject.TcpConnection.ShutdownInLoop` | webserver/src/TcpConnection.cc:104-107 | half-closes only when not writing |
| `TcpConnectionObject.TcpConnection.HandleRead` | webserver/src/TcpConnection.cc:128-142 | bytes received join the input buffer; end of stream closes; an error changes nothing |
| `TcpConnectionObject.TcpConnection.HandleClose` | webserver/src/TcpConnection.cc:166-169 | disconnected, no interest |
| `TcpConnectionObject.TcpConnection.ConnectDestroyed` | webserver/src/TcpConnection.cc:119-124 | a connected one becomes disconnected |
| `TcpConnectionObject.TcpConnection.Handle` | webserver/src/TcpConnection.cc:48-174 | each step of the model is met by its handler |
| `TcpConnectionObject.Live` | webserver/src/TcpConnection.cc:48-174 | a connection object can follow any run of the model whose reads bring at most 64K each, so the theorems on runs hold of its real buffers: in particular the bytes that `StreamsAre` names are with the kernel or in its output buffer |

## Left out

- LfuCache.LfuCache.Put: requires that a needed eviction finds a node; `LfuThresholds.EvictionsFindIff` says for which thresholds that is always so. Otherwise `kickOut` dereferences a null list or takes the tail sentinel for the victim and erases the key that happens to be in it, which is not modelled.
- LfuCache.LfuCache.PutInternal: the same requirement, for the same reason.
- LfuCache.LfuCache.KickOut: the same requirement, for the same reason.
- LfuCache.LfuCache.constructor: `maxAverageNum` is a natural number; negative thresholds, with which ageing would run at every access and could raise frequencies, are not modelled.
- LfuModel: counters are mathematical integers, so overflow of `curTotalNum_` is not modelled; nor is the memory that `freqToFreqList_` leaks, nor the sharded `KHashLfuCache`.
- EventLoopModel: poll and the other channels are the steps `PollReturn` and `EndHandling`; the overflow of the eventfd counter, the poll timeout and the thread check are not modelled.
- MemoryPools.MemoryPool.Allocate: sequential use with the default block size of 4096; an overlap of the two mutexes, where the reset of `freeList_` can drop slots, is characterised only by what `AllocateNewBlock` states, and a failing `operator new` is not modelled.
- MemoryPools.MemoryPool.AllocateNewBlock: states the whole new state for every valid pool, and validity only when the last block was used up, which is when line 42 calls it.
- MemoryPools: memory is a map from word addresses to words, so clients write whole aligned words; requests above 512 bytes and of zero bytes, which bypass the pools, are not modelled.
- DbConnectionPoolModel: ping and reconnect are steps that pass or throw; `checkConnections`, the destructor, the connection parameters (line 15 assigns `database_` to itself) and the database driver are not modelled.
- DbConnectionPoolModel.NoSharingNoLoss: only for runs in which handles can be made; `NoneSharedIff` shows that this is needed.
- AsyncLoggingModel: the file, its rolling and flushing, the three-second wait and `stop` are not modelled; the log file is the text it was given. The text appended is a string, so the C++ sign conversion of its length is not modelled.
- LogStreams.LogStream.FormatInteger: the other stream operators are not modelled; the operator for `unsigned short` is declared but has no definition.
- TimerQueueModel.CallbacksAreTimely: intervals are real numbers cut to whole microseconds; rounding of `double` is not modelled.
- TimerQueueWatch.TimerfdIsArmed: one clock serves wall time and timerfd, it never goes back, and the timerfd never goes off before its deadline; `EarlyFiringLosesTimer` says what an early one does.
- TimerQueueObject.TimerQueue.HandleRead: its callbacks add no timer; callbacks that do are steps of the model.
- TimerQueueWatch.ArmedUnlessOvertaken: assumes a schedule; `TimerfdIsArmed` has the condition a caller can see to.
- TimerQueueWatch.StepKeepsWatch: the same, for one step.
- TimerQueueWatch.RunKeepsWatch: the same, for a run.
- TimerQueueObject.TimerQueue.Insert: the red-black tree of the ordered set is a sorted sequence.
- TcpConnectionModel: `sendFile`, and two threads racing between the state check and the state change of `shutdown`, are not modelled; a callback's own calls are later steps.
- TcpConnectionModel.HalfCloseAfterDrain: only for a live connection; a queued `shutdownInLoop` that finds the connection closed calls `shutdownWrite` whatever is left in the buffer.
- TcpConnectionObject.TcpConnection.Send: calls in the loop thread only; from another thread the source keeps a raw pointer into the caller's string.
- TcpConnectionObject.TcpConnection.ConnectEstablished: the read interest, the tie to the channel and the connection callback are not modelled.
- TcpConnectionObject.TcpConnection.HandleClose: the read interest and the connection and close callbacks are not modelled.
- TcpConnectionObject.TcpConnection.ConnectDestroyed: the read interest and the removal of the channel from the poller are not modelled.
- Buffers.Buffer.Append: the data does not lie inside the buffer itself, and sizes are unbounded.
- Sockets, the acceptor, the epoll poller, HTTP parsing and routing, sessions, CORS and SSL are not modelled; most are library calls, and the header branch of the HTTP parser uses an undeclared variable.

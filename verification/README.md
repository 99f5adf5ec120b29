# Verified models of flare

Flare is an RPC framework built on fibers. This project models the parts of it whose
correctness is not visible from any single function, and proves what they promise for all
inputs, all block layouts and all interleavings.

| files | what they model |
|---|---|
| `SharedMutex`, `SharedMutexTry` | the fiber reader-writer lock, any number of fibers below the reader limit, one atomic, mutex or condition-variable operation per step |
| `Descriptor`, `DescriptorInvariant`, `DescriptorSafety`, `DescriptorTheorems`, `DescriptorOrder`, `DescriptorRestarts`, `DescriptorEvents`, `DescriptorErrors`, `DescriptorStall`, `DescriptorRuns` | the I/O descriptor: event loop, event fibers, killers and restarters over event counters, restart counters, event mask and cleanup handshake |
| `Blake3Bits`, `Blake3Spec`, `Blake3Words`, `Blake3Tree`, `Blake3Chunk`, `Blake3Wide`, `Blake3Hasher` | the incremental BLAKE3 hasher against the recursive tree of sections 2.1 and 2.4 to 2.6 of the BLAKE3 specification |
| `Buffer`, `BufferEdits`, `BufferBuilder`, `BufferRuns`, `BufferFlatten` | buffers made of views of shared blocks, the builder, and copying out up to a delimiter |
| `Server` | connection accounting of the RPC server |
| `Timer` | the self-serialising callback of a periodic timer |
| `IdAlloc` | the batched ID allocator |
| `Counting`, `Arithmetic`, `Prelude` | sums over sequences, division with remainder, shared types |

`dafny verify dfyconfig.toml` checks everything.

## How the models are built

Concurrent code is a step relation. A state holds the shared variables and one program counter
for every fiber or task, a step is one atomic operation or one critical section, a run is any
sequence of steps from an initial state, and the theorems are about every state of every run.
Sequential code is a class or a method over arrays, proved against a function of the input.

- `Blake3Spec.Mode` takes the compression function as a parameter: a function to sixteen words,
  as `blake3_compress_xof` computes them. `blake3_compress_in_place` is taken to give the first
  eight of these, as it does in the portable code (thirdparty/blake3/blake3_portable.c:84-123).
  Nothing else is assumed, so the results hold for the real function, and for every mode: plain,
  keyed and key derivation differ only in key and flags.
- `Blake3Wide.Platform` is any pair of powers of two for the SIMD degree and its maximum.
- A `View` points into an `array`, so that sharing of blocks is real sharing. The builder's
  current block is an array that no finished view points into.
- The poller reports a descriptor only while it is registered and only for armed directions;
  a callback returns `Leaving` only after `Kill` has been called; the acceptor's `Join` returns
  when none of its handlers is running; a timer that was killed does not fire.
  These are the contracts of code that is not modelled.
- A descriptor starts attached and enabled, with any event mask.
- Failing checks of the code are recorded in a field (`checks`) instead of ending the run, and
  the field is proved to stay true.

## What turned out otherwise than the source says

- flare/io/descriptor.cc:206-212 says that the task that resets the event counter runs after
  the descriptor has been disabled. `DescriptorRuns.ResetCanRunBeforeDisable` gives a run in
  which it runs before: another fiber has won the compare-and-swap in `Kill` and has not posted
  its task yet. `DescriptorOrder.ResetBeforeDisableExactly` says that this is the only way: the
  order is the one the comment claims if and only if the winning `Kill` has posted its task by
  the time the reset task is posted. None of the other results depends on that order.
- The check on the number of write restarts (flare/io/descriptor.cc:365 and 404) fails when
  `RestartWrite` is called twice without a suppression, for a descriptor that starts with its
  write event enabled: `DescriptorRuns.WriteRestartsCanFail`. `WriteChecksExactly` says when it
  fails in terms of the restarts and suppressions run so far, and `WriteChecksForCallers` that
  it never fails if every call answers a `Suppress` that was returned or that a callback in
  progress is about to return.
- Data left behind by a suppressed callback can be forgotten after a callback of the same
  direction has returned `Leaving`: `DescriptorRuns.LeavingCanStall`. Up to then it is not,
  killed or not: `NoStallUnderEdgeTriggering`. After it, it is not either while the descriptor
  is enabled, if no reset task was posted while a winning `Kill` had yet to post its own:
  `DescriptorStall.NoStallForCallers`.
- The check after the loop of `SlowNext` (flare/base/id_alloc.h:110) can fail if and only if the
  batch size divides `kMax - kMin`: `IdAlloc.ChecksExactly`.
- `Server::Join` can pass its last wait while a call of the idle timer is still on its way:
  `Stop` kills the timer (flare/rpc/server.cc:277) but does not wait for a fiber it has started,
  and such a call is counted nowhere before it has looked at the connection map, nor between
  finding nothing there and counting its job. `Server.TimerCanOutliveJoin` gives a run for each.
  The source sleeps for 100 ms after the wait because of this (flare/rpc/server.cc:329), a delay
  that is not modelled. `Server.JoinOutlivesAllExactly` says that nothing else can be left, and
  `Server.JoinIsSafeExactly` what a caller needs: nothing is left, however the run goes on, if
  and only if no such call is under way when the acceptor has been joined.

## Model

| member | source | states |
|---|---|---|
| SharedMutex.AnyStepKeepsInv | flare/fiber/shared_mutex.cc:21-89 | every atomic step of every operation by any fiber keeps the lock's invariant: the quota is what holders, waiters and the writer account for, mutexes have one owner, no sleeper is forgotten |
| SharedMutex.WriterExclusion | flare/fiber/shared_mutex.cc:21-71 | in every state of every run, while one fiber has exclusive access no other fiber is a writer with access or holds a reader slot, even if newcomers took slots granted to older readers |
| SharedMutex.ChecksHold | flare/fiber/shared_mutex.h:78-110 | none of the checks of the six operations ever fails, and the quota stays in the range of a 32-bit integer |
| SharedMutex.SleepersWillBeWoken | flare/fiber/shared_mutex.cc:56-89 | no lost wake-up: if the condition a sleeping fiber waits for is true, some fiber is about to notify it |
| SharedMutex.DrainingBalance | flare/fiber/shared_mutex.cc:24-37 | while a writer drains, slots granted, readers holding, readers on their way out and readers counted out add up to the readers it waits for |
| SharedMutex.NoDeadlock | flare/fiber/shared_mutex.cc:21-89 | if nobody holds the lock and some fiber is inside an operation, some fiber inside an operation can take a step |
| SharedMutexTry.TryLockAlone | flare/fiber/shared_mutex.cc:40-54 | in every state of every run, `try_lock` left alone: it fails at once if the writer mutex is taken, gets the lock if that is free and no reader waits or holds, and otherwise fails and leaves everything as it was |
| SharedMutexTry.TryLockSharedAlone | flare/fiber/shared_mutex.h:89-100 | `try_lock_shared` left alone gets its unit if no writer is draining or in, and otherwise fails and leaves everything as it was |
| SharedMutexTry.LockAlone | flare/fiber/shared_mutex.cc:21-28 | `lock` left alone gets a free lock |
| SharedMutexTry.LockSharedAlone | flare/fiber/shared_mutex.h:78-83 | `lock_shared` left alone gets its unit while no writer is draining or in |
| SharedMutexTry.FreeLockIsGot | flare/fiber/shared_mutex.h:78-100 | in every state of every run in which nobody is in, each of the four operations, called by an idle fiber and left alone, ends with the lock held in its own mode |
| SharedMutexTry.TryLockGivesUp | flare/fiber/shared_mutex.cc:40-54 | in every interleaving, a `try_lock` that fails was in progress in a state in which another fiber had the writer mutex or a reader was waiting or in |
| SharedMutexTry.TryLockSharedGivesUp | flare/fiber/shared_mutex.h:89-100 | in every interleaving, a `try_lock_shared` that fails was in progress in a state in which a writer was draining or in |
| DescriptorSafety.StepKeepsInv | flare/io/descriptor.cc:168-478 | every step of the event loop, of an event fiber, of a killer or of a restarter keeps the invariant |
| DescriptorTheorems.OneOwner | flare/io/descriptor.cc:168-267 | an event counter is positive exactly when it has an owner, and then exactly one: a fiber in its loop, a queued reset or suppress task, or the event loop about to become one |
| DescriptorTheorems.NoOverlap | flare/io/descriptor.cc:174-232 | two fibers are never in the loop of the same direction, so a callback never overlaps itself |
| DescriptorTheorems.FiredEventCausesAnotherRun | flare/io/descriptor.cc:196-229 | an event fired since the callback last began keeps the direction owned, and a fiber that is about to acknowledge goes back to the callback |
| DescriptorEvents.EventsAccounted | flare/io/descriptor.cc:149-166 | in every run, the increments of an event counter so far, plus the one the event loop may still owe, are the reports of its direction by the poller plus the suppress tasks that ended with restarts left |
| DescriptorEvents.PollFiresEach | flare/io/descriptor.cc:158-165 | when the event loop is idle again after a report, the counter of each direction reported has been incremented exactly once and no other |
| DescriptorEvents.EventIsLookedAt | flare/io/descriptor.cc:174-232 | no event is lost: by the time a counter is zero again after an increment, a callback of the direction has begun after that increment, or a reset or suppress task of the direction has run |
| DescriptorErrors.ErrorsAccounted | flare/io/descriptor.cc:269-294 | in every run, a fiber for `OnError` has been started or is owed if and only if an error was reported, and never a second one; every such fiber has called `OnError` or is about to |
| DescriptorErrors.OneErrorCall | flare/io/descriptor.cc:275-290 | with the event loop idle and no such fiber waiting to begin, `OnError` has been called once if an error was reported, and not otherwise |
| DescriptorTheorems.ChecksHold | flare/io/descriptor.cc:286-340 | no check of the descriptor or of the event loop's rearm, disable and detach operations fails, apart from the one on write restarts; no event counter goes below zero |
| DescriptorTheorems.CleanupNotLost | flare/io/descriptor.cc:415-447 | whenever cleanup is pending, all counters are zero and nothing has been queued, somebody is inside the check, and a check in that situation cannot give up |
| DescriptorTheorems.QuiescentIsClean | flare/io/descriptor.cc:124-137 | a killed descriptor with no fiber and no task left has been disabled and cleaned up exactly once |
| DescriptorTheorems.AtMostOneCleanup | flare/io/descriptor.cc:446-475 | no run calls `OnCleanup` twice |
| DescriptorTheorems.NoCallbackFromCleanupOn | flare/io/descriptor.cc:449-469 | from the state in which `OnCleanup` is about to run on, in every later state, no fiber is in or before a callback and the event loop fires nothing |
| DescriptorTheorems.ReferenceOutlivesBarePointers | flare/io/event_loop.cc:134-152 | once the event loop has dropped its reference, no fiber, no queued task and no step of the event loop, the cleanup check of a reset task included, uses the descriptor through a pointer without a reference |
| DescriptorTheorems.MaskFollowsRestarts | flare/io/descriptor.cc:316-397 | while enabled, a direction is in the event mask, and armed in the poller, exactly when its restart counter is positive |
| DescriptorTheorems.NoStallUnderEdgeTriggering | flare/io/descriptor.cc:338-351 | if a suppressed callback left data behind and the direction is enabled and armed, then it has an owner, or the event loop is about to give it one or disarm it, or the poller was armed again after the suppression, as long as no callback of the direction has left, which none can before `Kill` |
| DescriptorStall.NoStallForCallers | flare/io/descriptor.cc:338-351 | if the winning `Kill` had posted its task at every posting of a reset of the direction, then in every enabled state an armed direction with data left behind has an owner, was armed again after the suppression, or is attended to by the event loop |
| DescriptorRuns.LeavingCanStall | flare/io/descriptor.cc:204-217 | a run in which a callback has left and its reset has run before the disable task, and the data of an earlier suppression stays behind in an armed direction |
| DescriptorRestarts.RestartsAccounted | flare/io/descriptor.h:165-173 | in every state of every run, each restart counter is the initial one plus restarts run less suppressions run while enabled |
| DescriptorRestarts.BalanceIsHistory | flare/io/descriptor.h:165-173 | while enabled, the counter corrected by tasks on their way is the initial one plus calls of the restart function less returns of `Suppress` |
| DescriptorRestarts.HistoryOfAnyRun | flare/io/descriptor.h:104-113 | every run has a history of steps from which that balance holds in all its enabled states, and if its calls of `RestartWrite` keep to the rule below, no write check fails in any of its states |
| DescriptorRestarts.WriteChecksExactly | flare/io/descriptor.cc:355-413 | the check on the write restart counter has held up to a state if and only if at every write restart run before, while enabled, initial bit plus restarts run less suppressions run was at most one |
| DescriptorRestarts.WriteChecksForCallers | flare/io/descriptor.h:104-113 | if every call of `RestartWrite` answers a `Suppress` already returned or one a callback in progress is about to return, that check never fails |
| DescriptorRuns.WriteRestartsCanFail | flare/io/descriptor.cc:399-413 | a run with two calls of `RestartWrite` and no suppression, from an initial count of one, in which that check fails |
| DescriptorRuns.ResetCanRunBeforeDisable | flare/io/descriptor.cc:200-217 | a run in which the reset task of a leaving fiber runs while the descriptor is still enabled |
| DescriptorOrder.ResetBeforeDisableExactly | flare/io/descriptor.cc:204-217 | when the event loop first begins a reset task after it was posted, the descriptor is still enabled if and only if at the time of posting the winning `Kill` had not posted the disable task |
| Blake3Spec.LeftLen | thirdparty/blake3/blake3.c:155-160 | the left part is a power of two of whole chunks, leaves something over, and is at least half |
| Blake3Spec.LeftLenUnique | thirdparty/blake3/blake3.c:152-160 | there is no other left part with these properties |
| Blake3Words.ChainingValueByte | thirdparty/blake3/blake3.c:79-85 | byte `i` of a chaining value is byte `i % 4`, lowest first, of word `i / 4` of the node's compression |
| Blake3Words.RootBytesByte | thirdparty/blake3/blake3.c:87-108 | byte `p` of the output stream is byte `p % 4` of word `p % 64 / 4` of the node compressed with counter `p / 64` and flag 8 |
| Blake3Words.ChunkNode | thirdparty/blake3/blake3.c:110-145 | a chunk written out: every block compressed with the chunk's number, the first from the key with flag 1, the last with its length, padding and flag 2 |
| Blake3Words.InnerNode | thirdparty/blake3/blake3.c:147-150 | a node over several chunks written out: key, the two chaining values for the one possible split, length 64, counter 0, flag 4 |
| Blake3Words.HashOfBlock | thirdparty/blake3/blake3.c:561-576 | every byte of the hash of at most 64 bytes, from any offset, as a byte of one compression with flags 11 |
| Blake3Words.HashOfChunk | thirdparty/blake3/blake3.c:561-576 | the same for up to 1024 bytes, with flags 10 on the last block |
| Blake3Words.HashOfTree | thirdparty/blake3/blake3.c:584-603 | the same for longer inputs, from the two chaining values below the root with flags 12 |
| Blake3Bits.TopBit | thirdparty/blake3/blake3_impl.h:119-123 | a power of two, at most the argument (1 for zero), and more than half of it |
| Blake3Bits.TopBitUnique | thirdparty/blake3/blake3_impl.h:119-123 | there is only one such power |
| Blake3Bits.HighestOne | thirdparty/blake3/blake3_impl.h:76-103 | the portable cascade of masks and shifts gives, for every non-zero 64-bit number, the index `c < 64` with `2^c <= n < 2^(c+1)` |
| Blake3Bits.RoundDownToPowerOf2 | thirdparty/blake3/blake3_impl.h:119-123 | shifting by the index of the highest bit of the argument, with its lowest bit set, gives `TopBit(x)`, for every 64-bit number, zero included |
| Blake3Bits.Popcnt | thirdparty/blake3/blake3_impl.h:106-117 | clearing the lowest bit until nothing is left counts the bits |
| Blake3Bits.MaskIsRemainder | thirdparty/blake3/blake3.c:513-515 | masking with a power of two less one is the remainder |
| Blake3Tree.PairUpTree | thirdparty/blake3/blake3.c:210-243 | a level of parents with an odd value carried over has the same root chaining value as the level below |
| Blake3Tree.PairUpPair | thirdparty/blake3/blake3.c:342-350 | for more than two values it has the same children of the root, too |
| Blake3Tree.NodeIsTree | thirdparty/blake3/blake3.c:152-160 | the specification's tree over bytes is the left-full tree over the chunk chaining values, for chaining values and for root nodes |
| Blake3Tree.StackEntry | thirdparty/blake3/blake3.c:386-396 | entry i of a merged stack is the subtree over exactly the leaves after those of the entries below it |
| Blake3Tree.SizesAreBits | thirdparty/blake3/blake3.c:386-396 | the sizes of the entries are the set bits of the number of chunks: powers of two, strictly falling, adding up |
| Blake3Tree.LazyTop | thirdparty/blake3/blake3.c:407-438 | in an unmerged stack no entry is smaller than the one on top, so only the top two can be of equal size |
| Blake3Tree.LazyMerge | thirdparty/blake3/blake3.c:396-405 | merging the top two of a stack that wants it gives an unmerged stack of the same leaves with a top twice as large |
| Blake3Tree.Peel | thirdparty/blake3/blake3.c:595-601 | the last entry and everything behind it are the two children of one node, and the entries below keep that property |
| Blake3Chunk.AbsorbThenOutput | thirdparty/blake3/blake3.c:110-145 | compressing whole blocks early does not change a chunk's node as long as something follows them |
| Blake3Chunk.ChunkState.Update | thirdparty/blake3/blake3.c:110-138 | the state now stands for the old bytes followed by the input; the last block is still in the buffer, padded with zeros |
| Blake3Chunk.ChunkState.FillBuf | thirdparty/blake3/blake3.c:32-42 | takes all of the input or fills the block, and never more than fits |
| Blake3Chunk.ChunkState.Reset | thirdparty/blake3/blake3.c:18-25 | an empty state for the chunk with the given number |
| Blake3Chunk.ChunkState.Output | thirdparty/blake3/blake3.c:140-145 | the specification's node of the bytes seen, however they were split |
| Blake3Wide.HashOne | thirdparty/blake3/blake3_portable.c:125-143 | the chain over whole blocks with start flag on the first and end flag on the last |
| Blake3Wide.ChunkIsChain | thirdparty/blake3/blake3_portable.c:125-143 | for a full chunk that chain is the specification's chunk chaining value |
| Blake3Wide.ParentIsChain | thirdparty/blake3/blake3.c:227-232 | for a block of two chaining values it is the parent chaining value |
| Blake3Wide.HashMany | thirdparty/blake3/blake3_portable.c:145-160 | slot by slot the chains of the inputs, counters stepping only on request, no other slot touched |
| Blake3Wide.CompressChunks | thirdparty/blake3/blake3.c:166-203 | exactly the chunk chaining values, partial last chunk included, within the fixed array |
| Blake3Wide.CompressParents | thirdparty/blake3/blake3.c:210-243 | exactly one level of parents with odd carry, within the fixed array |
| Blake3Wide.HalvesFit | thirdparty/blake3/blake3.c:286-298 | the left half fills its slots exactly, the right half does not leave more than the left, and a single value only at degree one |
| Blake3Wide.SubtreeWide | thirdparty/blake3/blake3.c:262-319 | for every power-of-two degree: at most that many values (two for degree one), the same root chaining value as the chunks, and for more than one chunk at least two values with the same children of the root |
| Blake3Wide.SubtreeHalves | thirdparty/blake3/blake3.c:280-305 | the values of both recursive calls end up contiguous in the local array |
| Blake3Wide.SubtreeToParentNode | thirdparty/blake3/blake3.c:331-352 | exactly the two children of the root of the specification's tree |
| Blake3Hasher.StackDepth | thirdparty/blake3/blake3.h:33-38 | fewer than 2^54 chunks need at most 54 merged entries |
| Blake3Hasher.MergeWanted | thirdparty/blake3/blake3.c:386-404 | comparing the length with the population count tells a merged stack from an unmerged one |
| Blake3Hasher.LazyPair | thirdparty/blake3/blake3.c:589-594 | an unmerged stack with a subtree below its top has at least two entries, and the top two are the children of the node over their leaves |
| Blake3Hasher.SubtreeLen | thirdparty/blake3/blake3.c:496-515 | the largest power of two that fits into the input and divides the bytes hashed before, at least one chunk |
| Blake3Hasher.OutputRootBytes | thirdparty/blake3/blake3.c:87-108 | the requested stretch of the root's output stream, from any offset |
| Blake3Hasher.Hasher.MergeCvStack | thirdparty/blake3/blake3.c:396-405 | the stack is the merged stack of the chunks so far: one subtree per set bit, largest first |
| Blake3Hasher.Hasher.PushCv | thirdparty/blake3/blake3.c:439-445 | the merged stack of the chunks so far with the new value unmerged on top, within 55 slots |
| Blake3Hasher.Hasher.FinishChunk | thirdparty/blake3/blake3.c:461-480 | a chunk begun earlier is filled first, and goes to the stack only if more input follows |
| Blake3Hasher.Hasher.AddNext | thirdparty/blake3/blake3.c:495-542 | takes some input off; if that was all of it, the stack holds a subtree and at least one more below it |
| Blake3Hasher.Hasher.Update | thirdparty/blake3/blake3.c:447-554 | for every input that keeps the total below 2^64 bytes: the hasher stands for the old input followed by the new one, and its invariant holds |
| Blake3Hasher.Hasher.RootNode | thirdparty/blake3/blake3.c:571-601 | whatever state updates left, the roll-up arrives at the specification's root node of the whole input |
| Blake3Hasher.Hasher.FinalizeSeek | thirdparty/blake3/blake3.c:561-603 | the bytes from `seek` on of the specification's hash of everything absorbed, without changing the hasher |
| Blake3Hasher.HashPieces | thirdparty/blake3/blake3.c:447-603 | for every way to cut the input into updates, empty ones included, and every SIMD degree: the specification's hash of the concatenation |
| Buffer.NoncontiguousBuffer.Copy | flare/base/buffer.cc:58-66 | same contents, same blocks |
| Buffer.NoncontiguousBuffer.Assign | flare/base/buffer.cc:68-82 | takes over the contents, also from itself, and leaves the source unchanged |
| Buffer.NoncontiguousBuffer.Skip | flare/base/buffer.h:115-125 | the contents without their first bytes, on the fast path and on the slow one; size exact and no view empty |
| Buffer.NoncontiguousBuffer.SkipSlow | flare/base/buffer.cc:84-98 | the same for any number of whole views and a part of one |
| Buffer.NoncontiguousBuffer.Cut | flare/base/buffer.h:135-157 | the result has the first bytes and the buffer the rest, sizes exact, no view empty, no new block |
| Buffer.NoncontiguousBuffer.AppendView | flare/base/buffer.h:159-167 | the bytes of the view follow the contents; an empty view is dropped |
| Buffer.NoncontiguousBuffer.AppendBuffer | flare/base/buffer.h:169-172 | the contents of the other buffer follow, and the other buffer is left empty |
| Buffer.NoncontiguousBuffer.Clear | flare/base/buffer.cc:100-105 | no view is left and the size says so |
| Buffer.CutAndRejoin | flare/base/buffer.h:127-157 | what was cut off followed by what is left is the original |
| Buffer.Overwrite | flare/base/buffer.h:236-243 | writing to a block that one view shows changes the contents in that place and nowhere else |
| BufferEdits.CopyIsIndependent | flare/base/buffer.h:84-186 | copy and original share all blocks; after any sequence of skips, cuts, appends and clears of either, in any order, each holds what its own edits make of the common start |
| BufferBuilder.Builder.MarkWritten | flare/base/buffer.h:227-234 | the bytes already placed become contents, and the current block is never left full |
| BufferBuilder.Builder.Append | flare/base/buffer.h:274-296 | the bytes follow the contents whether the speculative change of `used_` held or was taken back; nothing but the current block is written |
| BufferBuilder.Builder.AppendSlow | flare/base/buffer.cc:127-136 | the same across any number of blocks |
| BufferBuilder.Builder.AppendChar | flare/base/buffer.h:333-337 | there is always room for one byte |
| BufferBuilder.Builder.AppendParts | flare/base/buffer.h:349-361 | the parts follow in order, copied at once or one by one |
| BufferBuilder.Builder.AppendView | flare/base/buffer.h:301-316 | the bytes of the view follow; fewer than 128 that fit into the current block are copied, and otherwise the view itself is put at the end |
| BufferBuilder.Builder.AppendBuffer | flare/base/buffer.h:318-329 | the contents of the buffer follow; fewer than 128 bytes that fit into the current block are copied, and otherwise its views themselves are taken over |
| BufferBuilder.Builder.Reserve | flare/base/buffer.h:244-258 | the contents grow by a stretch that lies in one piece inside one block, shown by one view at the end of what was built, and by no other |
| BufferRuns.ReserveAndFill | flare/base/buffer.h:236-258 | a place is reserved, anything is appended after it by any of the overloads, then the place is written: the buffer holds what was built before, the data, and what was appended |
| BufferBuilder.Builder.FlushCurrentBlock | flare/base/buffer.cc:118-125 | the contents are unchanged and all of them are in finished views |
| BufferBuilder.Builder.DestructiveGet | flare/base/buffer.h:266-269 | the buffer handed out has exactly the contents built |
| BufferRuns.BuildAll | flare/base/buffer.h:213-361 | for every sequence of appends of every kind and every block size of at least 1024 bytes, the buffer built is the concatenation |
| BufferFlatten.FlattenToSlowSlow | flare/base/buffer.cc:45-54 | the target begins with the first bytes of the contents and is otherwise unchanged |
| BufferFlatten.FlattenSlow | flare/base/buffer.cc:156-167 | the contents, or their first bytes if there are more than asked for |
| BufferFlatten.SearchAgain | flare/base/buffer.cc:190-193 | if a prefix has no occurrence of the delimiter, searching the longer string from one delimiter's length before the prefix's end finds its first occurrence |
| BufferFlatten.FlattenSlowUntil | flare/base/buffer.cc:169-202 | for every block layout and every delimiter: the contents up to and including the first delimiter, or all of them, truncated to the maximum |
| Server.StepKeepsInv | flare/rpc/server.cc:283-505 | every step of an accept handler, a removal, a background job or `Join` keeps the accounting |
| Server.NeverOverLimit | flare/rpc/server.cc:363-370 | connections let in and not released never exceed the limit, however far the counter overshoots while others are turned away |
| Server.AdmittedExactly | flare/rpc/server.cc:363-370 | in every run, a connection is let in if and only if those being admitted or turned away, in the map, and being torn down are fewer than the limit, and is turned away otherwise |
| Server.LimitIsReached | flare/rpc/server.cc:354-423 | for every limit and every number up to it, a run that ends with so many connections in the map |
| Server.CounterIsExact | flare/rpc/server.cc:458-504 | the connection counter is the sum of connections being admitted or rejected, in the map, and being torn down; the job counter is the number of jobs running; no check fails |
| Server.TornDownOnce | flare/rpc/server.cc:441-505 | every connection let in is in exactly one hand: on its way into the map, in it, with one close or timer job, with `Join`, or torn down |
| Server.TornDownInOrder | flare/rpc/server.cc:458-504 | whoever tears a connection down, its handler is joined only after it was stopped, that only after the connection was joined, and that only after it was stopped |
| Server.JoinWaitsForAll | flare/rpc/server.cc:298-324 | past its wait for connections, every connection ever let in has been stopped and joined, and its handler too |
| Server.OnlyTimersOutliveJoin | flare/rpc/server.cc:322-329 | when `Join` passes its wait for jobs, every task is over, or is a call of the timer that has not looked at the map yet, or one that removed nothing and has not counted its job yet |
| Server.JoinOutlivesAllExactly | flare/rpc/server.cc:322-329 | at that moment and in every later state all tasks are over, if and only if no such call is left at that moment |
| Server.NoTimerNoLeftover | flare/rpc/server.cc:277-329 | if no such call is under way when `Join` leaves its wait for the acceptor, none ever is again, and all tasks are over whenever `Join` is through |
| Server.JoinIsSafeExactly | flare/rpc/server.cc:283-329 | for every run that has come to the end of that wait: in every continuation all tasks are over once `Join` is through, if and only if no such call is under way |
| Server.TimerCanOutliveJoin | flare/rpc/server.cc:470-488 | for every limit, a run in which a call of either kind is left when `Join` is through |
| Server.JoinIsNotStuck | flare/rpc/server.cc:289-327 | with nothing left but such calls, `Join` can take its next step wherever it is |
| Server.JoinCanFinish | flare/rpc/server.cc:283-330 | from every state of every run there is a continuation in which `Join` gets through and all tasks are over, and one in which any given timer call under way has not moved at all |
| Timer.NoOverlap | flare/fiber/timer.cc:61-78 | the user's callback is never entered while it runs |
| Timer.InvokedIsEntered | flare/fiber/timer.cc:66-73 | in every run the number of invocations is how often some call has entered the user's callback |
| Timer.Accounted | flare/fiber/timer.cc:63-73 | at any time the invocations begun and those the one active call still owes add up to the calls that have entered, and if any is owed a call is active |
| Timer.ExactlyAsManyInvocations | flare/fiber/timer.cc:61-78 | once all calls have returned, there have been as many invocations as calls |
| IdAlloc.StepKeepsInv | flare/base/id_alloc.h:64-116 | when the batch size does not divide the range, every step of every thread keeps the batches chained end to start and the owners disjoint |
| IdAlloc.NeverIssuedTwice | flare/base/id_alloc.h:64-71 | between two wraps of the counter no ID is issued twice, by whatever threads, and every ID is in range |
| IdAlloc.IssuedInSequence | flare/base/id_alloc.h:64-71 | in every state of every run, the IDs issued from a batch are its IDs from the first on, each once and in order, up to its owner's `current`, and all of them if nobody has any left |
| IdAlloc.IssuedExactly | flare/base/id_alloc.h:64-71 | an ID of a batch has been issued if and only if the batch has no owner that is not past it |
| IdAlloc.GenerationIsIssued | flare/base/id_alloc.h:64-116 | a generation that is over has issued every ID of the range if and only if all its batches are used up, and none twice |
| IdAlloc.BatchesAreFull | flare/base/id_alloc.h:98-105 | every batch taken has `kBatchSize` IDs, or those left up to `kMax` |
| IdAlloc.NextAlone | flare/base/id_alloc.h:92-115 | from every state of every run, a thread without IDs that is left alone gets a batch with its next compare-and-swap and issues the value of the counter |
| IdAlloc.GenerationIsPartitioned | flare/base/id_alloc.h:93-107 | the batches taken between two wraps partition the range from `kMin` up to `kMax` |
| IdAlloc.ChecksExactly | flare/base/id_alloc.h:95-112 | the checks hold in every run if and only if the batch size does not divide `kMax - kMin` |
| IdAlloc.FailingRun | flare/base/id_alloc.h:99-110 | for every range the batch size divides, a run in which a thread gets an empty batch and the check fails |

## Left out

- The SIMD kernels of BLAKE3, their dispatch and the rounds of the compression function: compression is a parameter.
- The compiler's intrinsics for the highest bit and the bit count: `HighestOne` and `Popcnt` are the portable code.
- Arrays of chaining values hold one value per slot instead of 32 bytes; the pointer arithmetic inside them is not modelled.
- `blake3_hasher_init`, keyed and derive-key initialisation: they only choose key and flags.
- Lengths are unbounded integers; BLAKE3 inputs are below 2^64 bytes, and builder lengths do not wrap.
- Weak memory orders: atomic operations are sequentially consistent steps.
- The poller, sockets, notifier and fiber scheduler: their contracts are assumed as stated above.
- `AttachDescriptor` and delayed restarts: a descriptor starts attached, and a restart may be requested at any time.
- Lists of views are sequences; the linked nodes and their object pool are not modelled, nor are reference counts of blocks.
- `CreateBufferSlow` and `FlattenToSlow`, which call the modelled operations once.
- The user's filter on connections, which returns before anything is counted.
- `OnNewCall` and `OnCallCompletion`, which repeat the admission pattern of connections with a second counter.
- Clocks decide which connections the idle timer removes; the model lets it remove any. A call of it begins when the timer fires, and `KillTimer` is assumed to stop it from firing (flare/fiber/detail/timer_worker.cc:155-168).
- A close of a connection that is no longer in the map, which does nothing.
- What stopping and joining a connection or a handler does inside: the model records that and in which order it was done.
- Liveness under fair scheduling: results say that a step is possible, not that it is taken.

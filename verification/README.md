# Verified models of the emulator stack's state machines

Dafny models of the hard parts of this repository, and machine-checked proofs
about them. `dafny verify dfyconfig.toml` checks everything.

* **The two boundary-tag allocators of RT-Thread** (`Blocks`, `Rings`,
  `Payloads`, `MemHeap*`, `SmallMem*`, `BlockLaws`, `AllocClient`,
  `ClientView`). Addresses are offsets from the start of the pool. Each word of
  a block header is a map from header address to value, and writing a header
  word leaves arbitrary bytes in the header, so that the proofs cannot lean on
  header contents as data. A ghost list of blocks ties the words together. The
  run theorems say what a program may rely on, whatever it calls: a block it is
  given is one it does not hold, every byte stored through a pointer it still
  holds is there, calls fail exactly when stated, and the recorded maximum is
  the highest use.
* **The fixed-block pool** (`MemPool`, `PoolLaws`), every interrupt-disabled
  section an atomic step of a deterministic machine, and **the SMP big lock**
  (`CpuLock`), every CPU a sequence of steps, with critical sections,
  interrupts, and the context switch that hands the lock over.
* **Memory and formatting routines** (`MemOps`, `Digits`, `Format`,
  `FormatLaws`, `DirectiveLaws`, `PrintLaws`, `Vsnprintf`): blocked word loops
  against bytewise specifications, rt_vsnprintf against the complete output of a
  format, and reading a directive as the inverse of writing it.
* **The NES emulator**: lazily rendered sound against sample-by-sample sound
  (`SoundSpec`, `SoundLazy`, `SoundRun`, `SoundRange`, `SoundLaws`,
  `SampleChannel`, `Sound`), the two forms of the scroll position (`Ppu`,
  `BitReversal`), and bank switching (`Cart`).
* **nvboard's devices**: the terminal's dirty-cell cache (`Term`), the serial
  port with its line looped back (`Uart`) and the PS/2 sender (`Keyboard`).

Code that updates state is modelled by classes and loops whose contracts tie
the new state to a function of the old one; the theorems are about those
functions and their runs. What the functions themselves mean is stated once more
in plain numbers, lists and texts, without naming them, by the modules called
laws: which block a request gets and what is left of it (`MemHeapLaws`,
`SmallMemLaws`), what a reader finds in a printed text (`PrintLaws`), what each
sound channel does sample by sample (`SoundLaws`), whom the pool wakes and how
(`PoolLaws`); the smaller models hold theirs beside the functions.

What the proofs turned up, each with its exact condition:

* `rt_memheap_alloc` refuses a request that fits when it asks for all the free
  bytes there are (`RefusedFit`; `AskForAll` is an instance).
* `rt_smem_realloc` to a slightly smaller size moves the block, and fails when
  there is no room to move it to (`SmallMemRuns.ReallocFails`; `ShrinkFails`
  is an instance).
* When a bit of the sample channel comes out late, after the channel has been
  rendered past the time it was due, samples are rendered twice, and a table
  index can leave its table (`RangeExactly`; `LateBit` is an instance).
* `%lld` with a 32-bit `long` prints wrong values outside the stated range
  (`LongLongPrints`).
* A NUL in the serial queue blocks everything behind it (`NulStalls`,
  `FrontDrains`).
* A key of 128 or more ends the program at the terminal's assertion if it is
  queued in front of the first NUL (`BadByteArrives`, `RunDevice`).
* A $2007 write while the picture is drawn makes the two scroll
  representations part (`DrawingWriteParts`).
* Bank masks are remainders only for power-of-two bank counts
  (`MaskIsModuloExactly`).
* A PS/2 clock that starts high costs one stray sample (`FramesInOrder`).
* Clearing the terminal leaves the cursor undrawn, for good, until something is
  typed or focus or visibility changes (`CursorMissing`, `ClearLosesCursor`).

Configuration: the options of the shipped RT-Thread build (8-byte alignment,
long long support, precision and special flags in the formatter). Options, bytes
and arithmetic shared by the models are in `Basics`. The size of
a block header, of a pointer and of `unsigned long` are constants of which
only the facts the code needs are known.

## Model

| member | source | states |
|---|---|---|
| `Rings.RemoveFromRing` | rt-thread-am/src/memheap.c:46-49 | The two link writes that unlink a header from a circular list leave a circular list of the same nodes without it, `prev` still inverting `next`. |
| `Rings.InsertIntoRing` | rt-thread-am/src/memheap.c:706-709 | The four link writes that insert a header leave a circular list with the new node in place, `prev` still inverting `next`. |
| `Blocks.Conservation` | rt-thread-am/src/memheap.c:284-295 | In any tiling of the pool, free payload, spans of used blocks and headers of free blocks add up to the pool size. |
| `Blocks.AllApart` | rt-thread-am/src/memheap.c:237-262 | Blocks of a tiling never overlap and lie inside the pool. |
| `Blocks.SplitTiles` | rt-thread-am/src/memheap.c:237-265 | Splitting a block keeps the tiling in address order without gaps or overlaps. |
| `Blocks.SplitSummary` | rt-thread-am/src/memheap.c:284-288 | What a split does to free bytes, used span, free list contents and the set of header addresses. |
| `Blocks.MergeTiles` | rt-thread-am/src/memheap.c:652-684 | Merging two neighbours keeps the tiling. |
| `Blocks.MergeSummary` | rt-thread-am/src/memheap.c:655-684 | What a merge does to free bytes, used span, free list contents and header addresses: exactly one header becomes payload. |
| `Blocks.MarkSummary` | rt-thread-am/src/memheap.c:646-649 | What flipping the used bit does to free bytes, used span and free list contents. |
| `Payloads.CarveLive` | rt-thread-am/src/memheap.c:236-310 | Taking a block out of a free one, whole or split, adds exactly the new block to the live ones. |
| `Payloads.CarveCoalesced` | rt-thread-am/src/memheap.c:236-310 | Carving never leaves two free neighbours. |
| `Payloads.CarvePreserves` | rt-thread-am/src/memheap.c:236-333 | The header bytes written by an allocation lie outside the payload of every live block. |
| `Payloads.ReleasedShape` | rt-thread-am/src/memheap.c:651-690 | Freeing makes one free block of the block and its free neighbours and shifts the others, for all four neighbour cases. |
| `Payloads.ReleasedOk` | rt-thread-am/src/memheap.c:646-690 | After freeing, no two neighbours are both free and exactly the freed block is no longer live. |
| `Payloads.FreePreserves` | rt-thread-am/src/memheap.c:646-725 | Freeing leaves the contents of all other live blocks alone. |
| `Payloads.ShrunkKeeps` | rt-thread-am/src/memheap.c:522-588 | Shrinking in place keeps the kept prefix and the contents of all other live blocks. |
| `Payloads.ShrunkLive` | rt-thread-am/src/memheap.c:522-588 | Shrinking replaces the block among the live ones by its shorter self. |
| `Payloads.MoveKeeps` | rt-thread-am/src/memheap.c:495-503 | Allocate, copy, free: the common prefix arrives at the new block and all other live blocks keep their contents. |
| `Payloads.CopyThenFree` | rt-thread-am/src/memheap.c:499-500 | The copied prefix survives freeing the old block, merges included. |
| `MemHeaps.MemHeap.constructor` | rt-thread-am/src/memheap.c:75-153 | A new heap is valid: one free block over the pool, cut down to a multiple of 8 bytes, a zero-length used tail, and the ring of free blocks. |
| `MemHeaps.MemHeap.Alloc` | rt-thread-am/src/memheap.c:184-346 | Returns NULL exactly when the rounded size is not below the free total or fits no free block, and then changes nothing; so for 16 bytes and more NULL means that fewer than n + 8 bytes are free in all or in every block. Otherwise the first fitting block of the free list is carved, the free list and the block list are the ones stated, the new block is not live before, other live contents are kept, and max_used is the running maximum. |
| `MemHeaps.MemHeap.FirstFit` | rt-thread-am/src/memheap.c:219-232 | The search of the free list stops at its first fitting entry, and finds none only if no free block fits. |
| `MemHeaps.MemHeap.TakeFront` | rt-thread-am/src/memheap.c:237-288 | The split branch: front used, remainder free at the head of the free list, accounting as stated. |
| `MemHeaps.MemHeap.TakeWhole` | rt-thread-am/src/memheap.c:292-310 | The unsplit branch: the block leaves the free list, accounting as stated. |
| `MemHeaps.MemHeap.InsertionPoint` | rt-thread-am/src/memheap.c:691-709 | The freed block goes to the head of the free list, or in best mode in front of the first entry that is not smaller. |
| `MemHeaps.MemHeap.Free` | rt-thread-am/src/memheap.c:598-725 | The heap stays valid, the blocks are the coalesced ones, the free list loses a merged right neighbour and, unless the block was merged to the left, gains it at the place its mode says; exactly the given block leaves the live set, all other live contents are kept. |
| `MemHeaps.MemHeap.GrowInPlace` | rt-thread-am/src/memheap.c:431-485 | Taking the front of a free right neighbour: new block list, free list and accounting. |
| `MemHeaps.MemHeap.Shrink` | rt-thread-am/src/memheap.c:522-588 | The tail of the block becomes free and merges with a free right neighbour; accounting as stated. |
| `MemHeaps.MemHeap.Realloc` | rt-thread-am/src/memheap.c:362-589 | Exactly when it returns NULL, and that it then changes nothing; otherwise block list and free list are those of the branch taken (untouched, cut, grown into its neighbour, or allocated and released), the common prefix is kept, the live set changes in just this block and all other live contents are kept; NULL is alloc and size 0 frees. max_used is the larger of its old value and the use of the list in front of the release. |
| `MemHeapLists.GrownKeeps` | rt-thread-am/src/memheap.c:431-485 | In-place growth keeps the whole old payload and all other live contents. |
| `MemHeapLists.GrownTotals` | rt-thread-am/src/memheap.c:434-436 | In-place growth takes exactly the size difference from the free total and keeps the free list contents right. |
| `MemHeapLists.MergeTotals` | rt-thread-am/src/memheap.c:655-684 | Absorbing a free neighbour moves its header into the free total and takes it off the free list. |
| `MemHeapLists.RefusedFit` | rt-thread-am/src/memheap.c:201-201 | The test `size < available_size` turns a fitting request away exactly when the request is for all free bytes there are. |
| `MemHeapLists.FreshPoolRefuses` | rt-thread-am/src/memheap.c:201-201 | The refusal condition of alloc holds for the block list of a fresh pool and the request for all of its one block. |
| `MemHeapRuns.AskForAll` | rt-thread-am/src/memheap.c:75-201 | A concrete case: alloc on a newly initialised pool, asked for the size of its one free block, returns NULL and changes nothing. |
| `ClientViews.Disjoint` | rt-thread-am/src/memheap.c:333-333 | Two different live blocks never overlap. |
| `ClientViews.AllocConsistent` | rt-thread-am/src/memheap.c:184-346 | A newly allocated block joins the blocks a program holds without disturbing any byte the program has stored. |
| `ClientViews.HoldsResized` | rt-thread-am/src/memheap.c:497-500 | After a successful realloc the program finds its common prefix behind the new pointer. |
| `ClientViews.TakenFresh` | rt-thread-am/src/memheap.c:184-346 | A block carved out of a free one is at an address the program does not hold. |
| `ClientViews.StoreConsistent` | rt-thread-am/src/memheap.c:333-333 | A store through a held pointer hits no header and no other block the program holds. |
| `AllocClient.StaysStored` | rt-thread-am/src/memheap.c:184-725 | A byte the program has stored stays in its view until a store to the same place, a free or realloc of its block, or an allocation at its address. |
| `AllocClient.GetsStored` | rt-thread-am/src/memheap.c:333-503 | A store puts its byte into the view, a new block brings its size, and a realloc that succeeds takes the common prefix along. |
| `ClientViews.StoredReads` | rt-thread-am/src/memheap.c:333-333 | Every byte the program's view records is in memory where the program reads it. |
| `MemHeapRuns.ReallocFails` | rt-thread-am/src/memheap.c:362-589 | A realloc the program makes fails if and only if the block is too small, cannot grow in place, and alloc refuses; then nothing changes. |
| `MemHeapRuns.StepReallocNull` | rt-thread-am/src/memheap.c:383-386 | realloc of NULL does what alloc does, to both lists, the result, the program's view and max_used. |
| `MemHeapRuns.StepProgram` | rt-thread-am/src/memheap.c:184-725 | One call of any kind, realloc of NULL included: block list and free list become exactly what the call says (alloc takes the first entry of the free list that fits), NULL is returned exactly when alloc or realloc must refuse, a pointer handed out is not held by the program (realloc may give its own back), max_used becomes the larger of its old value and the use at the highest moment of the call, and the program's view of its memory stays true. |
| `MemHeapRuns.StepWrite` | rt-thread-am/src/memheap.c:333-333 | A store changes one byte, which lies in no header, and the program's view follows. |
| `MemHeapRuns.RunProgram` | rt-thread-am/src/memheap.c:75-725 | Any sequence of alloc, free, realloc and stores: at every call block list and free list, its order included, change as the call says and failure comes exactly as stated; no block is handed out that the program holds at that moment; every byte stored through a pointer still held can be read back; and max_used_size is the highest use reached in any state of the run, the ones inside a realloc included. |
| `MemHeapLaws.AllocPlain` | rt-thread-am/src/memheap.c:184-346 | In plain numbers: a request takes the next multiple of 8, at least 16 bytes; it fails if and only if that is not below the free total or every free block is smaller; otherwise the first entry of the free list that is not smaller gives it, and a rest of a header and 16 bytes or more stays free and heads the free list. |
| `MemHeapLaws.FailsOnlyFull` | rt-thread-am/src/memheap.c:184-346 | A request of at least 16 bytes that fails finds fewer than n + 8 bytes free in all, or in each free block. |
| `MemHeapLaws.FreePlain` | rt-thread-am/src/memheap.c:598-725 | The freed block and its free neighbours become one block, whose extent is written out; the right neighbour leaves the free list, and the block enters it at the head, or in best mode behind all smaller ones, unless it joined the left one. |
| `MemHeapLaws.ReallocPlain` | rt-thread-am/src/memheap.c:362-589 | The pointer stays if and only if the block is large enough, or its right neighbour is free and leaves more than 16 bytes over; the blocks after a cut or a growth written out in numbers, the rest first in the free list; any other block is moved as alloc and free move it. |
| `MemHeapLaws.UseIs` | rt-thread-am/src/memheap.c:284-288 | The bytes counted as in use are the used blocks with their headers and the headers of the free ones. |
| `SmallMems.SmallMem.constructor` | rt-thread-am/src/mem.c:177-241 | A new heap is valid: one free block over the memory, cut down to a multiple of 8 bytes, and a used end block, lfree at the free one, used and max 0. |
| `SmallMems.SmallMem.PlugHoles` | rt-thread-am/src/mem.c:126-164 | Merges the freed block with free neighbours on both sides and leaves lfree at the lowest free block, also when lfree was one of the merged headers. |
| `SmallMems.SmallMem.Free` | rt-thread-am/src/mem.c:515-558 | The heap stays valid, the blocks are the coalesced ones, exactly the given block leaves the live set, all other live contents are kept. |
| `SmallMems.SmallMem.FirstFit` | rt-thread-am/src/mem.c:316-324 | The scan from lfree that stops at mem_size_aligned - size returns the first fitting block in address order, and none only if no free block fits. |
| `SmallMems.SmallMem.Take` | rt-thread-am/src/mem.c:327-375 | The split and the whole branch: new block list and used bytes. |
| `SmallMems.SmallMem.AdvanceLow` | rt-thread-am/src/mem.c:384-391 | The lfree loop ends at the lowest free block or at heap_end; its assertion holds. |
| `SmallMems.SmallMem.Alloc` | rt-thread-am/src/mem.c:278-407 | Returns NULL exactly when the size is 0 or no free block holds the rounded size, and then changes nothing; so from MIN_SIZE bytes on NULL means that no free block has n + 8 bytes. Otherwise it takes the first fitting block in address order, which is not live before; other live contents are kept and max is the running maximum. |
| `SmallMems.SmallMem.Shrink` | rt-thread-am/src/mem.c:467-494 | The tail becomes free, merges to the right, and lfree and used stay exact. |
| `SmallMems.SmallMem.Realloc` | rt-thread-am/src/mem.c:421-506 | The pointer stays exactly when the block has the aligned size already or more than a header and MIN_SIZE beyond it, whatever else is free. Exactly when it returns NULL, and that it then changes nothing; otherwise the block list is the one of the branch taken, the common prefix and all other live contents are kept, and max is the larger of its old value and the use of the list in front of the release. A slightly smaller size is not served in place, so it can fail. |
| `SmallMemRuns.ShrinkFails` | rt-thread-am/src/mem.c:421-506 | A concrete case: on a new heap, alloc of everything and then realloc to 8 bytes less returns NULL. |
| `SmallMemRuns.ReallocFails` | rt-thread-am/src/mem.c:421-506 | A realloc the program makes fails if and only if the block does not stay in place and no free block holds the rounded size; then nothing changes. |
| `SmallMemLists.PluggedReleased` | rt-thread-am/src/mem.c:126-164 | plug_holes makes one block of the freed block and its free neighbours and shifts the others. |
| `SmallMemLists.PluggedLowest` | rt-thread-am/src/mem.c:139-163 | plug_holes leaves lfree at the lowest free block from anywhere it may stand when called. |
| `SmallMemLists.PluggedSpan` | rt-thread-am/src/mem.c:126-164 | Plugging holes does not change the span of used blocks. |
| `SmallMemLists.FreedOk` | rt-thread-am/src/mem.c:515-558 | After marking and plugging, no two neighbours are both free and exactly the freed block is no longer live. |
| `SmallMemLists.CarvedSpan` | rt-thread-am/src/mem.c:358-371 | The used counter grows by exactly the span of the carved block. |
| `SmallMemLists.ShrunkPlugged` | rt-thread-am/src/mem.c:470-492 | Splitting and plugging a shrunk block gives the list the memheap's shrink gives. |
| `SmallMemRuns.StepReallocNull` | rt-thread-am/src/mem.c:446-447 | realloc of NULL does what alloc does, to the block list, the result, the program's view and max. |
| `SmallMemRuns.StepProgram` | rt-thread-am/src/mem.c:278-558 | One call of any kind, realloc of NULL included: the block list becomes exactly what the call says (alloc takes the first fitting block), NULL is returned exactly when it must be, a pointer handed out is not held by the program, max becomes the larger of its old value and the highest use of the call, and the program's view of its memory stays true. |
| `SmallMemRuns.RunProgram` | rt-thread-am/src/mem.c:177-558 | Any sequence of alloc, free, realloc and stores: at every call the block list changes as the call says and failure comes exactly as stated; no block is handed out that the program holds at that moment; every byte stored through a pointer still held can be read back; and max is the highest use reached in any state of the run. |
| `SmallMemLaws.AllocPlain` | rt-thread-am/src/mem.c:278-407 | In plain numbers: a request takes the next multiple of 8, at least MIN_SIZE rounded up; it fails if and only if it is for 0 bytes or every free block is smaller; otherwise the first block in address order that is not smaller gives it, with a rest of a header and that minimum split off. |
| `SmallMemLaws.FailsOnlyFull` | rt-thread-am/src/mem.c:278-407 | A request of at least MIN_SIZE bytes that fails finds no free block of n + 8 bytes. |
| `SmallMemLaws.FreePlain` | rt-thread-am/src/mem.c:515-558 | The freed block and its free neighbours become one block, whose extent is written out. |
| `SmallMemLaws.ReallocPlain` | rt-thread-am/src/mem.c:421-506 | With m the size rounded up to 8: the pointer stays if and only if the block has m bytes or more than m + header + MIN_SIZE, whatever else is free; in the second case the rest becomes free space and joins a free right neighbour. Otherwise it fails if and only if every free block is too small. |
| `SmallMemLaws.UseIs` | rt-thread-am/src/mem.c:327-375 | The bytes counted as in use, the free payload and the headers of the free blocks are the heap. |
| `MemPools.LinkBlocks` | rt-thread-am/src/mempool.c:122-133 | The initialisation loop links all blocks into one chain, in order, ending in NULL. |
| `MemPools.BlocksApart` | rt-thread-am/src/mempool.c:111-131 | Different blocks of the pool do not overlap. |
| `MemPools.PopChain` | rt-thread-am/src/mempool.c:390-398 | Popping the head leaves the rest of the chain intact, acyclic and ending. |
| `MemPools.PushChain` | rt-thread-am/src/mempool.c:437-439 | Pushing a block keeps the chain acyclic. |
| `MemPools.MemPool.constructor` | rt-thread-am/src/mempool.c:89-136 | A pool with room for one block starts with all blocks free and linked, none handed out, nobody waiting, and the given threads ready. Blocks are as many as fit whole into the aligned memory, each its aligned size and a pointer wide. |
| `MemPools.MemPool.TryAlloc` | rt-thread-am/src/mempool.c:332-406 | One interrupt-disabled section of alloc: takes the head of the chain, fails or starts to wait, with the whole new state; the assertion that the head is not NULL cannot fail. |
| `MemPools.MemPool.AfterSleep` | rt-thread-am/src/mempool.c:372-406 | A woken thread reports its error or rechecks the count, with the whole new state. |
| `MemPools.MemPool.Timeout` | rt-thread-am/src/mempool.c:356-375 | A timer takes its thread, wherever it is, off the waiting list and wakes it with an error; the others keep their order. |
| `MemPools.MemPool.Free` | rt-thread-am/src/mempool.c:415-465 | The block becomes the head of the chain and the first waiting thread is resumed. |
| `MemPools.AllAccounted` | rt-thread-am/src/mempool.c:319-465 | Free and held blocks are all blocks of the pool, each once. |
| `MemPools.Marked` | rt-thread-am/src/mempool.c:425-427 | A block whose header points back to the pool is a held one. |
| `MemPools.ActInv` | rt-thread-am/src/mempool.c:319-465 | Every section of every thread keeps free and held blocks disjoint and complete, the waiting list the suspended threads, and every free block matched by a thread resumed for it while any thread waits. |
| `MemPools.RunInv` | rt-thread-am/src/mempool.c:319-465 | No wake-up is lost in any run: while a thread waits, there are at least as many threads resumed for a block, and not yet run, as free blocks. |
| `MemPools.RunSection` | rt-thread-am/src/mempool.c:319-465 | Any one section of any thread has exactly the result and the new state of the pool model. |
| `MemPools.AllServed` | rt-thread-am/src/mempool.c:332-406 | At any point of a run, a block handed out is not outstanding; a thread that asks gets one exactly if fewer than all blocks are outstanding, and otherwise waits exactly if it may and fails if not. |
| `MemPools.RunSections` | rt-thread-am/src/mempool.c:319-465 | Any interleaving of sections on a new pool: state and every single result are the model's, every request is served as AllServed says, the held blocks are those handed out and not given back, free and outstanding blocks add up to the total, and no wake-up is lost. |
| `MemPools.RunPool` | rt-thread-am/src/mempool.c:89-465 | The same from rt_mp_init on, for any size, block size and set of threads. |
| `PoolLaws.TimesOutExactly` | rt-thread-am/src/mempool.c:356-382 | Over runs: a thread that runs again after its wait reports failure without asking again if and only if its timer fired since it last ran, whatever sections lie between, and then changes neither blocks nor queue. |
| `PoolLaws.QueueOrder` | rt-thread-am/src/mempool.c:354-354 | In every state of a run the waiting threads stand in the order of their last wait, the latest first. |
| `PoolLaws.ResumesLatest` | rt-thread-am/src/mempool.c:441-452 | A release with threads waiting resumes the one that went to sleep last, and no other. |
| `PoolLaws.TakesLatest` | rt-thread-am/src/mempool.c:387-406 | A thread that gets a block gets, of the free ones, the one given back last. |
| `CpuLocks.InitInv` | rt-thread-am/src/components.c:270-275 | The state before any CPU has taken the lock satisfies the invariant; the boot lock is the first step. |
| `CpuLocks.StepExclusive` | rt-thread-am/src/cpu.c:195-262 | Every step of every CPU keeps at most one owner. |
| `CpuLocks.StepPlaced` | rt-thread-am/src/cpu.c:195-262 | Every step keeps every thread on at most one CPU. |
| `CpuLocks.StepCounted` | rt-thread-am/src/scheduler_mp.c:266-742 | Every step keeps the counts exact: cpus_lock_nest counts the open rt_cpus_lock and rt_enter_critical calls, scheduler_lock_nest the big lock once plus every critical section and disabling of preemption. |
| `CpuLocks.CurrentOk` | rt-thread-am/src/cpu.c:230-230 | If callers undo only what they did, the count the source asserts to be above 0 is above 0; and scheduler_lock_nest 1 under the lock means no critical section and no disabled preemption. |
| `CpuLocks.RunInv` | rt-thread-am/src/cpu.c:195-262 | Every state of every run of any number of CPUs satisfies the invariant. |
| `CpuLocks.LockDiscipline` | rt-thread-am/src/cpu.c:195-262 | In every reachable state at most one CPU owns the lock, and a running CPU owns it exactly when its current thread counts it, spinning CPUs aside. |
| `CpuLocks.ReleaseDiscipline` | rt-thread-am/src/cpu.c:224-262 | Only the owner releases, at its outermost unlock or exit; the restore step hands over or releases exactly as the target's count requires. |
| `CpuLocks.SwitchDiscipline` | rt-thread-am/src/scheduler_mp.c:436-493 | scheduler_lock_nest 1 is enough: no context switch leaves a thread in a critical section or with preemption disabled, and one at the end of an interrupt leaves a thread that counts nothing. |
| `CpuLocks.CriticalExcludes` | rt-thread-am/src/scheduler_mp.c:657-742 | While a running thread is in a critical section its CPU owns the lock, and no other CPU's running thread is in one. |
| `CpuLocks.CountsAreCalls` | rt-thread-am/src/scheduler_mp.c:266-742 | In every state of every run the three counts of every thread are those of the calls it has made and not undone: cpus_lock_nest the big lock's, critical_lock_nest the critical sections', and scheduler_lock_nest one for the big lock, one for every critical section and one for every disabling of preemption. |
| `CpuLocks.NeverStuck` | rt-thread-am/src/cpu.c:195-262 | What each CPU can do in every state with the invariant: take the lock, undo each call its thread has open, get the free lock it spins for, and go on with a start or switch. |
| `CpuLocks.GivesBack` | rt-thread-am/src/scheduler_mp.c:266-742 | No deadlock: a CPU that owns the lock can give it back all by itself, in as many steps as the thread counts it (two more in the middle of a switch), and every CPU that spins can then take it. |
| `CpuLocks.Smp.CpusLock` | rt-thread-am/src/cpu.c:195-216 | rt_cpus_lock up to the spin performs exactly the protocol's step. |
| `CpuLocks.Smp.SpinLock` | rt-thread-am/src/cpu.c:211-211 | The spinlock is taken when free, and an rt_enter_critical that waited goes on to count its section. |
| `CpuLocks.Smp.CpusUnlock` | rt-thread-am/src/cpu.c:224-240 | rt_cpus_unlock performs exactly the protocol's step; its assertion follows from the thread having an rt_cpus_lock to undo. |
| `CpuLocks.Smp.CriticalEnter` | rt-thread-am/src/scheduler_mp.c:657-695 | rt_enter_critical up to the spin performs exactly the protocol's step, its assertion included. |
| `CpuLocks.Smp.CriticalExit` | rt-thread-am/src/scheduler_mp.c:701-742 | rt_exit_critical performs exactly the protocol's step and schedules exactly when the scheduler is unlocked; its assertion follows from the thread being in a section. |
| `CpuLocks.Smp.LeaveByIrq` | rt-thread-am/src/scheduler_mp.c:487-489 | The switch at the end of an interrupt leaves its thread with all counts 0; the assertion holds. |
| `CpuLocks.Smp.SetCurrentThread` | rt-thread-am/src/cpu.c:252-257 | The first half of the restore performs the protocol's step. |
| `CpuLocks.Smp.LockStatusRestore` | rt-thread-am/src/cpu.c:258-261 | The second half of the restore performs the protocol's step. |
| `MemOps.ForwardAt` | rt-thread-am/src/kservice.c:336-337 | What a byte-by-byte forward copy leaves at each address, overlaps included. |
| `MemOps.ForwardSplit` | rt-thread-am/src/kservice.c:315-337 | Copying in two parts is copying in one. |
| `MemOps.MovedAt` | rt-thread-am/src/kservice.c:361-380 | Every byte after a memmove: in the target the old byte of the source, outside what it was. |
| `MemOps.FilledAt` | rt-thread-am/src/kservice.c:195-261 | Every byte after a memset. |
| `MemOps.CopyIsMoveExactly` | rt-thread-am/src/kservice.c:275-345 | A forward copy is a memmove on every memory if and only if the target does not start inside the source. |
| `MemOps.CopyCorrupts` | rt-thread-am/src/kservice.c:336-337 | Otherwise a concrete byte comes out wrong. |
| `MemOps.MemSet` | rt-thread-am/src/kservice.c:195-261 | The blocked word loops fill exactly the given bytes, for every length and alignment, and change nothing else. |
| `MemOps.MemCpy` | rt-thread-am/src/kservice.c:275-345 | The blocked word loops equal the byte-by-byte forward copy for every length, alignment and overlap; ranges that do not overlap from below are moved. |
| `MemOps.MemMove` | rt-thread-am/src/kservice.c:361-380 | dest[i] is the old src[i] for every overlap, and no other byte changes. |
| `Digits.ReversedValue` | rt-thread-am/src/kservice.c:829-838 | The digits produced by the divide loop evaluate to the number, in every base. |
| `Digits.FitsBuffer` | rt-thread-am/src/kservice.c:749-753 | 64 digit places are enough for every 64-bit number in every base from 2 up. |
| `Digits.DigitCount` | rt-thread-am/src/kservice.c:749-753 | A number below base^k has at most k digits. |
| `FormatLaws.WidthLaw` | rt-thread-am/src/kservice.c:816-960 | The printed number is exactly as long as its field, or as sign, prefix and digits need; an explicit precision 0 prints none of the digits it counted. |
| `FormatLaws.DecimalRoundTrip` | rt-thread-am/src/kservice.c:716-723 | Without flags or precision the text is the canonical decimal, and skip_atoi reads the same number back, wherever the text stands. |
| `FormatLaws.ScanReads` | rt-thread-am/src/kservice.c:716-723 | skip_atoi stops at the first character that is no digit, with the value of those before it. |
| `FormatLaws.DecimalInjective` | rt-thread-am/src/kservice.c:829-838 | Different numbers print differently. |
| `FormatLaws.SignedPrints` | rt-thread-am/src/kservice.c:772-812 | %hd, %d and %ld print every value of their type as its signed decimal, the most negative included. |
| `FormatLaws.LongLongPrints` | rt-thread-am/src/kservice.c:784-791 | %lld prints its value v if and only if `long` has 64 bits, or 0 <= v with v mod 2^32 < 2^31, or -2^31 <= v < 0. |
| `FormatLaws.LongLongWrong` | rt-thread-am/src/kservice.c:784-791 | A concrete case: with a 32-bit `long`, 2147483648 prints as -2147483648. |
| `FormatLaws.PercentD` | rt-thread-am/src/kservice.c:976-1262 | The output for "%d" is the signed decimal of the argument. |
| `Vsnprintf.WrittenAppend` | rt-thread-am/src/kservice.c:850-960 | Guarded stores one after the other store a prefix of the concatenated text and nothing at or past the end. |
| `Vsnprintf.Divide` | rt-thread-am/src/kservice.c:696-714 | divide takes the lowest digit off. |
| `Vsnprintf.DivideLoop` | rt-thread-am/src/kservice.c:829-838 | The divide loop fills tmp with exactly the digits, inside its 64 places. |
| `Vsnprintf.PutNumber` | rt-thread-am/src/kservice.c:850-960 | The seven output loops write their pieces in order through the guard. |
| `Vsnprintf.PrintNumber` | rt-thread-am/src/kservice.c:733-961 | print_number writes the number's text through the guard and moves the cursor by its whole length. |
| `Vsnprintf.SkipAtoi` | rt-thread-am/src/kservice.c:716-723 | The loop reads what the specification of skip_atoi says. |
| `DirectiveLaws.ParsesBack` | rt-thread-am/src/kservice.c:1019-1091 | Any flags, width, precision and qualifier, written as text anywhere in a format, are read back as exactly the flags, numbers, arguments and qualifier they stand for, up to the conversion character. |
| `PrintLaws.DigitsRead` | rt-thread-am/src/kservice.c:829-838 | The digits of the divide loop, turned round, are the numeral of the number in the base: no leading zero, every digit below the base in the right case, and a reader of their own gets the number back. |
| `PrintLaws.NumberField` | rt-thread-am/src/kservice.c:815-960 | What print_number appends is blanks, sign, prefix, zeros, digits, blanks, padded to width and precision on the side the flags ask for; the digits are the numeral of the magnitude, and missing for an explicit precision 0. |
| `PrintLaws.UnsignedField` | rt-thread-am/src/kservice.c:1192-1258 | %u, %o, %b, %x and %X with any flags, width, precision and qualifier: the digits read back as the argument modulo its type in base 10, 8, 2, 16 and 16, upper case for %X alone, behind 0, 0b, 0x or 0X if # is given. |
| `PrintLaws.UnsignedOutput` | rt-thread-am/src/kservice.c:976-1262 | The complete output for a single %u, %o, %b, %x or %X, with or without qualifier, is the numeral of the argument in base 10, 8, 2, 16 or 16. |
| `PrintLaws.SignedField` | rt-thread-am/src/kservice.c:1205-1258 | %d and %i: the numeral of the value in base 10 behind its sign, padded as asked for. |
| `PrintLaws.StringField` | rt-thread-am/src/kservice.c:1124-1160 | %s: the string up to its NUL, the width or a positive precision, whichever comes first, in a field of exactly the width. |
| `PrintLaws.CharField` | rt-thread-am/src/kservice.c:1098-1122 | %c: the low byte of the argument in a field of the width. |
| `PrintLaws.PointerField` | rt-thread-am/src/kservice.c:1162-1175 | %p with a width prints as %x does. |
| `PrintLaws.PointerOutput` | rt-thread-am/src/kservice.c:1162-1175 | %p alone prints 0x and the address in 8 or 16 digits. |
| `PrintLaws.OtherConversions` | rt-thread-am/src/kservice.c:1183-1230 | %% prints a percent sign, an unknown conversion itself, and a percent sign at the end of the format itself; none takes an argument. |
| `PrintLaws.TakesOne` | rt-thread-am/src/kservice.c:1096-1256 | Every other conversion takes one argument and ends behind its letter. |
| `PrintLaws.Literal` | rt-thread-am/src/kservice.c:1006-1017 | Text without a percent sign is copied. |
| `PrintLaws.InContext` | rt-thread-am/src/kservice.c:1006-1262 | A directive written behind such text adds its own text, and the format goes on with the arguments it left. |
| `PrintLaws.OneDirective` | rt-thread-am/src/kservice.c:1006-1262 | The output of a format that is one directive is that directive's text. |
| `Vsnprintf.ReadQualifier` | rt-thread-am/src/kservice.c:1075-1091 | h, l, ll and L are read as the grammar of directives says. |
| `Vsnprintf.ParseDirective` | rt-thread-am/src/kservice.c:1019-1091 | Flags, width, precision and qualifier are read as the grammar of directives says. |
| `Vsnprintf.PrintString` | rt-thread-am/src/kservice.c:1124-1160 | %s writes the string cut at the width and at a positive precision, padded on the proper side. |
| `Vsnprintf.Convert` | rt-thread-am/src/kservice.c:1096-1261 | Every conversion character, unknown ones included, writes its text and consumes its arguments. |
| `Vsnprintf.Emit` | rt-thread-am/src/kservice.c:1006-1262 | The format loop writes the complete output through the guard. |
| `Vsnprintf.VsnPrintf` | rt-thread-am/src/kservice.c:976-1280 | For every format and argument list: the result is the length of the complete output whatever the size; with a size above 0 a prefix and a terminating NUL are stored; nothing at or past size, and nothing behind the NUL, changes. |
| `SoundSpec.PhaseAdd` | fceux-am/src/sound.cpp:584-628 | Rendering j samples and then k is rendering j + k. |
| `SoundSpec.SampleBound` | fceux-am/src/sound.cpp:560-628 | With volumes at most 256 each channel contributes whole units, squares at most 15, triangle 45, noise 30, PCM 127. |
| `SoundSpec.SweepStays` | fceux-am/src/sound.cpp:403-411 | The sweep unit never takes a period below zero. |
| `SoundLazy.CatchUpAbs` | fceux-am/src/sound.cpp:560-628 | Rendering a channel early changes nothing of what will finally be heard. |
| `SoundLazy.TickAbs` | fceux-am/src/sound.cpp:560-628 | Letting time pass and rendering later is rendering every channel at every sample. |
| `SoundLazy.ChangeAbs` | fceux-am/src/sound.cpp:195-280 | A register change is safe if every channel is caught up or cannot hear it. |
| `SoundLazy.PsgUnheard` | fceux-am/src/sound.cpp:195-280 | A write to $4000-$400F changes nothing for the channels that Write_PSG does not render first. |
| `SoundLazy.PsgAbs` | fceux-am/src/sound.cpp:195-280 | Write_PSG renders the right channel before it changes anything. |
| `SoundLazy.StatusAbs` | fceux-am/src/sound.cpp:323-348 | So does the $4015 write. |
| `SoundLazy.FrameAbs` | fceux-am/src/sound.cpp:370-455 | So does FrameSoundStuff, which leaves out the sample channel. |
| `SoundLazy.FlushAbs` | fceux-am/src/sound.cpp:1013-1056 | A flush of the lazy renderer is a flush of the eager one. |
| `SoundLazy.DeltaAt` | fceux-am/src/sound.cpp:536-551 | What playing a bit at an earlier time does to every sample: from that time on the sample channel's new level is added, and the old one taken away where it was not rendered yet. |
| `SoundLazy.DeltaAbs` | fceux-am/src/sound.cpp:536-551 | Playing a late bit with the sample channel's cursor set back is the eager renderer changing the level from the time the bit was due. |
| `SoundLazy.DeltaExactly` | fceux-am/src/sound.cpp:536-551 | A bit is the eager renderer's if and only if the sample channel is not rendered beyond the time it is due, or is silent. |
| `SoundLazy.StepAbs` | fceux-am/src/sound.cpp:195-1056 | Every event of the lazy renderer is the same event of the renderer that draws every channel at every sample, a bit of the sample channel as long as that channel is not yet rendered beyond the time the bit is due. |
| `SoundRun.RunRefines` | fceux-am/src/sound.cpp:195-1056 | So is every run whose sample bits are all on time. |
| `SoundRun.SchedulesAgree` | fceux-am/src/sound.cpp:560-1056 | However catch-up calls are interleaved with the same events, sample bits on time in both, the same registers, phases, cursors and samples result. SchedulesPart shows that the condition is needed. |
| `SoundRun.PromptTimely` | fceux-am/src/sound.cpp:518-551 | If every bit is played the moment it is due, all bits of the run are on time. |
| `SoundRun.TimelyNoDouble` | fceux-am/src/sound.cpp:536-551 | A run whose bits are all on time renders nothing twice. |
| `SoundRun.FirstWrite` | fceux-am/src/sound.cpp:303-309 | The start states that RangeExactly speaks of, one for each value of the latch, are those a first $4011 write leaves at power-on. |
| `SoundRun.MixedFields` | fceux-am/src/sound.cpp:1039-1048 | The fields of a sample are the sums of the channels' levels: no carry, triangle + noise + PCM at most 202, squares at most 30. |
| `SoundRun.FrameInv` | fceux-am/src/sound.cpp:379-455 | Frame steps keep decvolume at most 15 and the periods inside 11 bits. |
| `SoundRun.DeltaInv` | fceux-am/src/sound.cpp:536-551 | A sample bit keeps the fields in range, and the level of the sample channel inside every sample behind its cursor, unless it sets the cursor back over samples of the period that were rendered. |
| `SoundRun.LazyStepInv` | fceux-am/src/sound.cpp:32-560 | So does every event of the unit, the sample channel rendering nothing twice. |
| `SoundRun.RunInv` | fceux-am/src/sound.cpp:32-455 | Every run of the lazy renderer in which no sample of the period is rendered twice by the sample channel keeps register ranges, wave counters above 0 and every sample inside its fields. |
| `SoundRun.RunInRange` | fceux-am/src/sound.cpp:32-33 | At whatever point of such a run the buffer is flushed, every index into wlookup1[32] and wlookup2[203] is in range. The condition is that no sample bit sets the cursor of the sample channel back over rendered samples; RangeExactly shows it necessary. |
| `SoundRange.RangeExactly` | fceux-am/src/sound.cpp:518-1048 | A schedule of events from power-on keeps every index into the two tables in range at every point, for all values the same writes may carry, all settings and any latch, if and only if in it no sample bit sets the cursor of the sample channel back over samples of the period that were rendered. |
| `SoundRange.LoudestOverflows` | fceux-am/src/sound.cpp:536-568 | In every schedule that does, the loudest values of its writes overflow a field. |
| `SoundRange.SchedulesPart` | fceux-am/src/sound.cpp:536-568 | A concrete case: the same late bit, once behind a catch-up of the sample channel and once without it, leaves different samples. |
| `SoundRange.LateBit` | fceux-am/src/sound.cpp:300-1048 | A concrete input: four cycles after the latch was set to 127, a second $4011 write is followed by a bit that was due three cycles before it; an index then leaves its table. |
| `SampleChannels.PlayBacks` | fceux-am/src/sound.cpp:518-557 | The bits of one hook call come out in the order of their times, and all are due within the cycles of the call. |
| `SampleChannels.FirstDecides` | fceux-am/src/sound.cpp:536-556 | The bits of one call are on time, and make no sample be rendered twice, if and only if this holds of the first one. |
| `SampleChannels.HookExactly` | fceux-am/src/sound.cpp:518-557 | So a hook call makes the sample channel render something twice if and only if its cursor is beyond the time of the first bit that comes out. |
| `Sounds.Apu.constructor` | fceux-am/src/sound.cpp:1104-1195 | After power-on and reset the unit is the start state of the runs, the invariants hold and the sample channel is reset. |
| `Sounds.Apu.SquareLoop` | fceux-am/src/sound.cpp:605-621 | The sample loop renders exactly the samples of the square channel and its final duty and counter. |
| `Sounds.Apu.RDoSQ` | fceux-am/src/sound.cpp:571-628 | The square renderer, with its early exits, is one catch-up. |
| `Sounds.Apu.RDoPCM` | fceux-am/src/sound.cpp:560-568 | The PCM renderer is one catch-up. |
| `Sounds.Apu.RDoTriangle` | fceux-am/src/sound.cpp:738-778 | The triangle renderer, halted or running, is one catch-up. |
| `Sounds.Apu.RDoNoise` | fceux-am/src/sound.cpp:924-987 | The noise renderer, both taps, is one catch-up. |
| `Sounds.Apu.WritePSG` | fceux-am/src/sound.cpp:195-280 | The register handler is the lazy renderer's write. |
| `Sounds.Apu.WriteDac` | fceux-am/src/sound.cpp:303-309 | The $4011 write renders PCM first and sets a 7-bit latch. |
| `Sounds.Apu.DeltaBit` | fceux-am/src/sound.cpp:536-551 | A delta bit moves the latch by two inside 7 bits, heard from the time on that the hook's temporary offset gives, in the past if it is late. |
| `Sounds.Apu.WriteDmc` | fceux-am/src/sound.cpp:282-321 | The $4010, $4012 and $4013 writes: PCM is rendered before the period changes, and the registers and the interrupt flag of the sample channel are those stated. |
| `Sounds.Apu.DmcDma` | fceux-am/src/sound.cpp:491-515 | The sample channel's memory reader: the byte is buffered, address and size move on, and at the end the sample restarts or raises its interrupt. |
| `Sounds.Apu.PlayBits` | fceux-am/src/sound.cpp:532-557 | The loop of the CPU hook plays exactly the bits that are due, oldest first, each at its own time. |
| `Sounds.Apu.StatusWrite` | fceux-am/src/sound.cpp:323-348 | The $4015 write is the lazy renderer's; it starts the sample unless one is playing, or stops it, and clears its interrupt flag. |
| `Sounds.Apu.FrameSoundStuff` | fceux-am/src/sound.cpp:370-455 | The frame step is the lazy renderer's. |
| `Sounds.Apu.CountAndSweep` | fceux-am/src/sound.cpp:379-422 | Length counters and sweep units of a half frame. |
| `Sounds.Apu.SweepUnit` | fceux-am/src/sound.cpp:395-420 | Sweep period and divider of one square channel. |
| `Sounds.Apu.EnvelopesAndLinear` | fceux-am/src/sound.cpp:424-454 | Linear counter and envelopes of a quarter frame. |
| `Sounds.Apu.Convert` | fceux-am/src/sound.cpp:1039-1048 | The conversion loop converts exactly the samples of the period, all table indices in range. |
| `Sounds.Apu.FlushEmulateSound` | fceux-am/src/sound.cpp:1013-1056 | A flush in a state of a run catches up all channels, converts with every table index in range, and moves the leftover to the front. |
| `Sounds.RunApu` | fceux-am/src/sound.cpp:195-1195 | From power-on through any enabled events in which the sample channel renders nothing twice: the unit is in the state the model's run gives, the invariants hold, and a flush would find its table indices in range. |
| `SoundLaws.NoiseStep` | fceux-am/src/sound.cpp:957-982 | The shift register moves up by one, and bit 0 becomes the exclusive or of bit 14 and bit 13, or bit 8 in short mode. |
| `SoundLaws.NoiseInjective` | fceux-am/src/sound.cpp:957-982 | Two different contents of the register never become the same. |
| `SoundLaws.NoiseLives` | fceux-am/src/sound.cpp:950-985 | A register that is not zero is not zero after any number of samples. |
| `SoundLaws.NoiseStarts` | fceux-am/src/sound.cpp:1104-1195 | In every run from power-on, whatever is written and however it is rendered, the noise register is never zero. |
| `SoundLaws.NoiseHeard` | fceux-am/src/sound.cpp:930-948 | The noise is heard while bit 14 is 0 and the length has not run out, at twice its scaled level; bit 7 of $400E selects the short sequence. |
| `SoundLaws.StepTime` | fceux-am/src/sound.cpp:602-640 | A moving channel keeps its step until its counter has run down, and then takes the next one and reloads. |
| `SoundLaws.Periods` | fceux-am/src/sound.cpp:602-640 | n whole periods later a channel is n steps on. |
| `SoundLaws.Still` | fceux-am/src/sound.cpp:581-586 | A channel that is not moving stays where it is. |
| `SoundLaws.StepLengths` | fceux-am/src/sound.cpp:602-628 | A step of the square takes twice its period plus two cycles, that of the triangle its period plus one. |
| `SoundLaws.Duty` | fceux-am/src/sound.cpp:600-600 | The duty bits give 1, 2, 4 and 6 of the eight steps of a square wave, in one piece. |
| `SoundLaws.DutyRestarts` | fceux-am/src/sound.cpp:182-193 | A write to $4003 or $4007 makes the duty begin anew at the next step. |
| `SoundLaws.DutiesSwapped` | fceux-am/src/sound.cpp:204-205 | Swapped duties exchange 25% and 50% and keep the other bits. |
| `SoundLaws.Audible` | fceux-am/src/sound.cpp:170-180 | A square channel is audible exactly if its length has not run out, its period is at least 8, and the period the sweep would raise it to stays below 2048. |
| `SoundLaws.SquareLevel` | fceux-am/src/sound.cpp:588-598 | The level of a square is its envelope scaled by the volume setting in 256ths. |
| `SoundLaws.TriangleWave` | fceux-am/src/sound.cpp:743-745 | The triangle goes from 15 down to 0 and up again in 32 steps, one level at a time, two steps at either end. |
| `SoundLaws.CutLevels` | fceux-am/src/sound.cpp:560-568 | The triangle counts three times and the sample channel once, scaled by the volume in 256ths and cut to whole units. |
| `SoundLaws.OneDecay` | fceux-am/src/sound.cpp:444-453 | Between two steps of an envelope pass speed + 1 quarter frames. |
| `SoundLaws.EnvelopeFalls` | fceux-am/src/sound.cpp:434-454 | A restarted envelope begins at 15 and falls by one every speed + 1 quarter frames. |
| `SoundLaws.EnvelopeEnds` | fceux-am/src/sound.cpp:444-453 | At 0 it stays, or begins again at 15 if it loops. |
| `SoundLaws.EnvelopeWrite` | fceux-am/src/sound.cpp:200-255 | Bits 0 to 3 of the volume registers are the volume if bit 4 is set, and else the speed of the decay; bit 5 is the loop. |
| `SoundLaws.LengthRuns` | fceux-am/src/sound.cpp:379-393 | A length counter loses one every half frame until it is 0, unless the halt bit of its channel is set. |
| `SoundLaws.LengthTable` | fceux-am/src/sound.cpp:85-89 | The shape of the table of lengths. |
| `SoundLaws.PeriodWrite` | fceux-am/src/sound.cpp:182-219 | $4002 and $4003, $4006 and $4007 write the period, low byte first; the second loads the length if the channel is enabled and restarts the envelope. |
| `SoundLaws.StatusBits` | fceux-am/src/sound.cpp:333-347 | $4015 silences the channels whose bits are 0 and lets the others be loaded. |
| `SoundLaws.SweepTime` | fceux-am/src/sound.cpp:395-420 | A sweep is due every (bits 4 to 6) + 1 half frames and does nothing in between. |
| `SoundLaws.SweepActs` | fceux-am/src/sound.cpp:400-414 | When due it raises the period by a power-of-two part of it while the sum is below 2048, or lowers it by that part, the first square by one more. |
| `SoundLaws.LinearRuns` | fceux-am/src/sound.cpp:426-432 | The linear counter loses one every quarter frame. |
| `SoundLaws.LinearReload` | fceux-am/src/sound.cpp:245-249 | A write to $400B reloads it from $4008 at the next quarter frame, and at every one while bit 7 is set. |
| `SoundLaws.OddFrames` | fceux-am/src/sound.cpp:370-380 | Lengths and sweeps move at even frame steps only. |
| `SoundLaws.LatchMoves` | fceux-am/src/sound.cpp:538-549 | A bit of the sample moves the latch up or down by two unless it would leave 0 to 127. |
| `SoundLaws.FormatWrite` | fceux-am/src/sound.cpp:288-301 | Bits 0 to 3 of $4010 select the period of a bit; with bit 7 clear the interrupt is taken back; nothing under way changes. |
| `SoundLaws.PeriodTables` | fceux-am/src/sound.cpp:92-121 | Along the tables the periods of a bit fall and those of the noise rise; on a PAL machine, whose clock is slower, they are never longer, and shorter by at most an eighth. |
| `SoundLaws.ResetSilent` | fceux-am/src/sound.cpp:1127-1143 | After a reset the sample channel gives no bit until it has been given a byte. |
| `SoundLaws.SampleBegins` | fceux-am/src/sound.cpp:162-166 | The sample begins at $C000 + 64 * $4012 and has 16 * $4013 + 1 bytes. |
| `SoundLaws.SampleReads` | fceux-am/src/sound.cpp:493-516 | The bytes are read upwards, $8000 following $FFFF; behind the last one the sample starts again or raises its interrupt. |
| `SoundLaws.ByteBits` | fceux-am/src/sound.cpp:532-557 | The bits of a byte come out lowest first, a period apart, and behind the eighth the next byte is taken. |
| `SoundLaws.FieldsConvert` | fceux-am/src/sound.cpp:1045-1046 | A sample of squares and other channels converts by the two tables. |
| `SoundLaws.MixerRises` | fceux-am/src/sound.cpp:1205-1219 | Both mixer tables rise. |
| `SoundLaws.MixerEnds` | fceux-am/src/sound.cpp:1205-1219 | The two tables begin at 0 and end at 4219 and 12164. |
| `SoundLaws.ConvertedBound` | fceux-am/src/sound.cpp:1045-1046 | So a sample whose fields are in range converts to at most 14 bits. |
| `SoundLaws.LeftoverMoves` | fceux-am/src/sound.cpp:1051-1056 | The samples a flush keeps are the last ones of the period, converted, and the rest of the buffer is silent. |
| `Terms.TypedWraps` | nvboard/src/term.cpp:106-117 | Text typed into an empty terminal is found again by reading the lines one behind the other; the rest is blank. |
| `Terms.Characters` | nvboard/src/term.cpp:59-117 | What each character does to the lines and the cursor: newline and a full line begin a blank line, return goes to the margin, backspace blanks the place to the left if there is one, every other character is written. |
| `Terms.WindowShows` | nvboard/src/term.cpp:59-78 | The window shows the last lines in order, the very last one at its bottom once there are enough. |
| `Terms.Term.constructor` | nvboard/src/term.cpp:4-19 | A new terminal shows what it should with nothing marked and the cursor drawn, and its text is one blank line. |
| `Terms.Term.SetDirtyChar` | nvboard/src/term.cpp:80-84 | Marks the cell at all three levels and no other. |
| `Terms.Term.InitDirty` | nvboard/src/term.cpp:21-25 | Sets all three levels of flags. |
| `Terms.Term.DrawCursor` | nvboard/src/term.cpp:127-140 | Changes only the cursor's cell. |
| `Terms.Term.Newline` | nvboard/src/term.cpp:59-67 | Moves to a new line; a full window scrolls and everything is marked, otherwise no mark changes; the cursor stays inside text and window. |
| `Terms.Term.Backspace` | nvboard/src/term.cpp:86-104 | backspace(false) blanks the character before the cursor and marks exactly both cells; at the margin it does nothing. |
| `Terms.Term.FeedCh` | nvboard/src/term.cpp:106-117 | The assertion fails exactly for a character of 128 or more; every other changes the text as the text model says, marks the cell the cursor was in, and keeps the dirty tracking sound. |
| `Terms.Term.FeedStr` | nvboard/src/term.cpp:119-121 | A string is taken up to its first character of 128 or more, all of it if there is none. |
| `Terms.Term.Clear` | nvboard/src/term.cpp:47-57 | Back to one blank line, every cell of the screen blank, nothing marked, no cursor drawn. |
| `Terms.Term.SetFocus` | nvboard/src/term.cpp:41-45 | The cursor's cell is redrawn exactly if the focus changed; no other cell and no mark changes. |
| `Terms.Term.SetCursorVisibility` | nvboard/src/term.cpp:35-39 | The cursor's cell is redrawn exactly if the visibility changed; no other cell and no mark changes. |
| `Terms.Term.UpdateGui` | nvboard/src/term.cpp:142-166 | Afterwards every cell but the cursor's shows its character of the window; the cursor's cell shows the cursor exactly if something was marked or it was drawn since the last clear; with nothing marked no cell changes. |
| `Terms.CursorMissing` | nvboard/src/term.cpp:27-57 | After a run the cursor is undrawn if and only if the terminal was cleared and since then nothing was typed and neither focus nor visibility really changed. |
| `Terms.CursorShows` | nvboard/src/term.cpp:27-45 | After any operations and an update the cursor's cell shows the cursor, with the focus as last set, exactly if it was last made visible and something has happened since the last clear. |
| `Terms.ClearLosesCursor` | nvboard/src/term.cpp:47-57 | Two inputs: after a clear no number of updates draws the cursor; a change of focus does. |
| `Terms.Run` | nvboard/src/term.cpp:1-166 | After any sequence of operations and one update the whole screen is determined: the window onto the text typed since the last clear, and in the cursor's cell the cursor or a blank as CursorMissing says. |
| `Uarts.EightBits` | nvboard/src/uart.cpp:49-51 | Eight bits shifted out at one end and in at the other are the byte again. |
| `Uarts.BitMoves` | nvboard/src/uart.cpp:41-81 | One tick moves one bit and keeps receiver and sender coupled. |
| `Uarts.TickInv` | nvboard/src/uart.cpp:41-81 | A tick keeps the coupling and the stream: received, then in flight, then queued. |
| `Uarts.Conserved` | nvboard/src/uart.cpp:41-86 | For any interleaving of pushes and ticks, received + in flight + queued is what was pushed, in order. |
| `Uarts.Drains` | nvboard/src/uart.cpp:41-86 | Without NUL in the queue everything is received exactly when the stated number of ticks has passed. |
| `Uarts.NulStalls` | nvboard/src/uart.cpp:65-69 | A queued NUL is never sent: it and all behind it stay in the queue for good, whatever happens. |
| `Uarts.FrontDrains` | nvboard/src/uart.cpp:41-86 | With any queue: what stands in front of the first NUL is received in full exactly when the stated number of ticks has passed, and nothing else ever is. |
| `Uarts.BadByteArrives` | nvboard/src/event.cpp:65-65 | Left alone, the device receives a byte of 128 or more if and only if one was received, is under way, or is queued in front of the first NUL. |
| `Uarts.TickTimes` | nvboard/src/nvboard.cpp:27-32 | The first tick comes with the sixteenth update, the others every divisor updates. |
| `Uarts.Uart.TxReceiveBit` | nvboard/src/uart.cpp:41-60 | The receiver's code is the model's step; the terminal is fed what was received, and its assertion fails exactly at a byte of 128 or more. |
| `Uarts.Uart.RxSendBit` | nvboard/src/uart.cpp:62-81 | The sender's code is the model's step. |
| `Uarts.Uart.RxGetchar` | nvboard/src/uart.cpp:83-86 | Pushing any byte is the model's push. |
| `Uarts.Uart.Update` | nvboard/src/nvboard.cpp:27-32 | Every divisor-th update ticks, receiver before sender, and keeps the invariants; the program ends in it exactly if the tick receives a byte the terminal does not accept. |
| `Uarts.RunDevice` | nvboard/src/uart.cpp:19-97 | Any sequence of updates and keys on a new device: the program ends at the terminal's assertion if and only if a byte of 128 or more is received; otherwise the terminal shows all that was received, and received, under way and queued are what was pushed. |
| `Keyboards.OddParity` | nvboard/include/keyboard.h:15-17 | The folded parity macro makes the number of ones odd. |
| `Keyboards.DataBits` | nvboard/src/keyboard.cpp:58-62 | The eight data bits, lowest first, are the byte. |
| `Keyboards.FrameReads` | nvboard/src/keyboard.cpp:51-71 | A frame begins with 0 and ends with 1; between them stand the byte, lowest bit first, and a bit that makes the number of ones odd. |
| `Keyboards.KeysRead` | nvboard/src/keyboard.cpp:21-29 | A host that takes 0xe0 for an extended key and 0xf0 for a release finds every key in the codes, in order, pressed or released. |
| `Keyboards.CodesAre` | nvboard/src/keyboard.cpp:21-29 | The codes of press and release written out, for plain and for extended keys. |
| `Keyboards.UpdateInv` | nvboard/src/keyboard.cpp:39-72 | Every update keeps: samples are the frames of the completed bytes and the beginning of one more. |
| `Keyboards.FramesInOrder` | nvboard/src/keyboard.cpp:21-72 | In any interleaving of keys and updates the samples are the frames of the scan codes in key order; a clock that starts high costs one stray sample first. |
| `Keyboards.IdleLosesNothing` | nvboard/src/nvboard.cpp:24-25 | In every run, the updates left out while the keyboard is idle would change nothing: no byte is under way or queued. |
| `Keyboards.OneLess` | nvboard/src/keyboard.cpp:51-71 | Every update brings the end of the byte one update nearer. |
| `Keyboards.ByteTakes242` | nvboard/src/keyboard.cpp:39-72 | A byte takes 22 toggles of CLK_NUM + 1 updates, and leaves exactly its frame. |
| `Keyboards.Keyboard.PushKeyCodes` | nvboard/src/keyboard.cpp:21-29 | push_key queues prefix, release mark and code. |
| `Keyboards.Keyboard.UpdateState` | nvboard/src/keyboard.cpp:39-72 | update_state is the model's update; its two assertions hold. |
| `Ppus.VsRefines` | fceux-am/src/ppu.cpp:1195-1211 | Fixit1 on the packed address is increment_vs on the counters, modulo 2^15. |
| `Ppus.InstallRefines` | fceux-am/src/ppu.cpp:1186-1193 | Fixit2 is install_h_latches. |
| `Ppus.StepRefines` | fceux-am/src/ppu.cpp:236-272 | Adding 1 or 32 is clocking the daisy-chained counters, modulo 2^15. |
| `Ppus.SameAccess` | fceux-am/src/ppu.cpp:218-220 | Both forms access the same 14-bit address. |
| `Ppus.ScrollPosition` | fceux-am/src/ppu.cpp:906-925 | The two $2005 writes set the scroll position in dots, eight to a tile, and nothing else. |
| `Ppus.NextLine` | fceux-am/src/ppu.cpp:236-272 | increment_vs goes to the next of the 240 lines, from the last one to the first one of the other nametable; lines in the attributes wrap without switching. |
| `Ppus.Write2000Coupled` | fceux-am/src/ppu.cpp:848-862 | A $2000 write keeps both scroll representations equal. |
| `Ppus.Write2005Coupled` | fceux-am/src/ppu.cpp:906-925 | So does a $2005 write, first or second. |
| `Ppus.Write2006Coupled` | fceux-am/src/ppu.cpp:928-958 | So does a $2006 write, first or second. |
| `Ppus.StepLatched` | fceux-am/src/ppu.cpp:848-958 | Every event keeps TempAddr and the latches the same number; a second $2006 write and a frame start make the current positions the same too. |
| `Ppus.ScrollsAgree` | fceux-am/src/ppu.cpp:173-272 | The same events on a unit with the older and on one with the newer renderer: TempAddr and the latches stay equal modulo 2^15 in and across both units, and RefreshAddr of the one equals the counters of the other if no $2007 write was made in the picture since the position was last loaded. |
| `Ppus.NoDrawingWrites` | fceux-am/src/ppu.cpp:960-1005 | Without $2007 writes in the picture that condition holds throughout. |
| `Ppus.DrawingWriteParts` | fceux-am/src/ppu.cpp:960-1005 | A $2007 write while the picture is drawn is the exception: it always makes the two units' positions differ. |
| `Ppus.Ppu.B2000` | fceux-am/src/ppu.cpp:848-862 | The handler writes the latched position of both forms, whichever renderer runs, and keeps them equal. |
| `Ppus.Ppu.B2005` | fceux-am/src/ppu.cpp:906-925 | The handler writes the latched position of both forms, whichever renderer runs, and keeps them equal. |
| `Ppus.Ppu.B2006` | fceux-am/src/ppu.cpp:928-958 | The handler writes both forms and keeps them equal; after the second write the current positions are equal whatever they were. |
| `Ppus.Ppu.A2007` | fceux-am/src/ppu.cpp:743-844 | A $2007 read moves the form of the running renderer; the newer one copies its address to RefreshAddr. |
| `Ppus.Ppu.B2007` | fceux-am/src/ppu.cpp:960-1005 | So does a $2007 write. |
| `Ppus.Ppu.LineEnd` | fceux-am/src/ppu.cpp:1195-1211 | The older renderer does Fixit1, the newer one increment_vs, if the picture is on. |
| `Ppus.Ppu.LineRestart` | fceux-am/src/ppu.cpp:1186-1193 | The older renderer does Fixit2, the newer one install_h_latches, if the picture is on. |
| `Ppus.RunBoth` | fceux-am/src/ppu.cpp:173-1211 | Two units, one with each renderer, through the same events by the handlers: their positions agree as ScrollsAgree says. |
| `BitReversal.BuildTable` | fceux-am/src/ppu.cpp:73-92 | The doubling loop fills the table with the bit reversals of its indices. |
| `BitReversal.ReverseBit` | fceux-am/src/ppu.cpp:73-92 | Bit i of the reversal is bit bits - 1 - i of the number. |
| `BitReversal.ReverseTwice` | fceux-am/src/ppu.cpp:73-92 | Reversal is its own inverse. |
| `Carts.MaskModulo` | fceux-am/src/cart.cpp:107-115 | A mask of ones takes the remainder. |
| `Carts.MaskIsModuloExactly` | fceux-am/src/cart.cpp:107-115 | Masking with n - 1 is the remainder modulo n for every bank number if and only if n is a power of two. |
| `Carts.OneMapping` | fceux-am/src/cart.cpp:167-211 | For a power-of-two size of at least 2 KiB both branches of setprg8r, setprg16r and setprg32r give one mapping, 32-bit wrap-around included. |
| `Carts.WindowRead` | fceux-am/src/cart.cpp:132-134 | A read at A + offset returns byte (V * window + offset) mod size. |
| `Carts.OutsideWindow` | fceux-am/src/cart.cpp:75-89 | Pages outside the window keep their bytes. |
| `Carts.Cart.SetPagePtr` | fceux-am/src/cart.cpp:75-89 | Exactly the given pages change, pointer and RAM flag. |
| `Carts.Cart.SetPrg` | fceux-am/src/cart.cpp:167-211 | Both branches set the pages and RAM flags as stated, for every size. |
| `Carts.Cart.CartBR` | fceux-am/src/cart.cpp:132-134 | A read goes through the page pointer. |
| `Carts.SwitchAndRead` | fceux-am/src/cart.cpp:132-211 | After a bank switch on a power-of-two chip, a read returns the bank's byte inside the window and what it returned before outside. |

## Left out

- Semaphores, critical sections and object names of the allocators, hooks, memory-trace names, shell commands, `detach`, `create` and `delete`: the methods are the sections between taking and giving back the lock.
- Pools too small for one block, misaligned pools and pointers the allocator never returned: preconditions of the source.
- Word size: sizes and addresses are unbounded integers; requests whose rounding would wrap the machine word, and pools of 2^31 bytes and more, where a size passes through `rt_int32_t`, are not modelled.
- MemHeapRuns.RunProgram: the program passes on NULL or a pointer it holds, as C requires of it; the same in SmallMemRuns.
- How long a waiting thread has slept: whether it may wait again is arbitrary at each section.
- Chains of header words: the words of a header are maps and not bytes of the pool, so that two header words cannot overlap by construction.
- The thread scheduler: which thread is picked, priorities, signals, and the depth of nested interrupts; a context switch may pick any thread that is off.
- The IRQ level saved and restored around the lock: interrupts count as off while a thread has an rt_cpus_lock to undo. The separate spinlocks of `cpu.c`, but for their disabling of preemption. The 16-bit width of the nesting counts.
- CpuLocks.RunInv: threads undo only the calls they made, and interrupt code undoes its own before the switch at its end; both are conditions of the steps.
- Signed overflow inside `skip_atoi` and the length counter of `rt_vsnprintf`: numbers there are unbounded, so a width of more than 2147483647 is outside the model, as is the negation of the smallest `int` passed for `*`.
- A buffer that wraps around the end of the address space in `rt_vsnprintf`.
- rt_memset and rt_memcpy built with RT_KSERVICE_USING_TINY_SIZE: plain byte loops, not in the shipped configuration.
- `rt_malloc_align`, `__rt_ffs` and the string routines of `kservice.c`: easier than what is here.
- The low-quality sound renderers, expansion sound, FIR filters and the delivery of interrupts to the CPU.
- FCEU_SoundCPUHook: the frame counter in cycles (a frame step may come at any time), the four cycles a read of the sample channel takes from the CPU (they are ticks before it), and a bit that was due before time 0, for which the unsigned time would wrap.
- SoundRun.RunInRange: no sample of the period is rendered twice by the sample channel, which RangeExactly shows necessary; volumes are at most 256, as the settings document, and the time within a flush period fits the buffer of 40000 samples.
- `tristep` is unbounded; only its low five bits matter, so its wrap-around is invisible.
- The data moved by $2007, the picture itself, sprites, the pattern lookup tables and the delayed reset of the newer picture unit; the newer renderer's use of RefreshAddr as a scratch variable while it fetches tiles, and its horizontal counter inside a line, which the older one steps on a copy.
- Ppus.ScrollsAgree: after a $2007 write in the picture nothing is said about the current positions until they are loaded again; that write itself always parts them.
- Ppus.Ppu: its packed address and its counters are two record fields; update of single counters in place is not captured.
- Sounds.Apu: the register file is one record field, replaced as a whole when a register changes.
- CHR banks, `setprg2r`, `setprg4r`, writes to PRG RAM, and the dummy page that ResetCartMapping maps; a page never set has no byte.
- `backspace(true)` of the terminal, which has no caller.
- SDL: a cell of the screen is its character or the cursor; a filled region counts as blanks. The dirty characters are a two-dimensional array, so the row-major index arithmetic is not captured.
- The time stamps of nvboard, its event loop and the pins other than clock, data and the serial line.
- nanos-lite, nemu, npc and yemu: stubs, foreign calls or toys.

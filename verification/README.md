# xv6 with two page sizes, in Dafny

A model of the x86 teaching kernel xv6, extended with 4 MB pages, and proofs about it: the write-ahead log and
buffer cache, the block allocator and file contents, the two-pool user allocator, address spaces with two page
sizes, the process table, pipes, the shell's parser and the matcher of `grep`. `dafny verify dfyconfig.toml`
checks the whole project.

## What is modelled

| file | source | subject |
|---|---|---|
| `Blocks.dfy` | all | disk blocks, little-endian words, sequences of atomic block writes |
| `Cache.dfy` | `bio.c`, `memide.c` | the buffer cache: linked ring, reference counts, pins, disk |
| `LogFormat.dfy` | `log.c` | the log header on disk, what a disk recovers to, the writes of commit and recovery |
| `Log.dfy` | `log.c` | `write_log`, `write_head`, `install_trans`, `commit`, `recover_from_log`, `log_write` over the cache |
| `LogMachine.dfy` | `log.c` | every interleaving of operations, commits, readers, crashes and recoveries |
| `LogHistory.dfy` | `log.c` | what runs of that machine make of the data that operations write |
| `LogCommit.dfy` | `log.c` | the machine's commit performs the block writes of `commit` |
| `LogPanic.dfy` | `log.c`, `bio.c` | when the capacity test stops `log_write`, and when a commit finds no buffer |
| `Bitmap.dfy`, `Inodes.dfy` | `fs.c` | the free map, inode records, which inode owns which block, the bytes of a file |
| `Fs.dfy` | `fs.c`, `file.c` | `balloc`, `bfree`, `bmap`, `itrunc`, `readi`, `writei`, `iupdate`, `filewrite` |
| `WriteCost.dfy` | `fs.c` | what a write costs in free blocks, and exactly which blocks it logs |
| `FreshVolume.dfy` | `fs.c` | an empty volume meets the invariant of the file-system code |
| `TightVolume.dfy` | `fs.c`, `file.c` | a full volume on which a chunk of `filewrite` logs exactly MAXOPBLOCKS blocks |
| `Umalloc.dfy` | `umalloc.c` | both allocator pools as a circular list of headers in memory |
| `PageTables.dfy`, `Spaces.dfy`, `Vm.dfy` | `vm.c`, `kalloc.c`, `proc.c`, `sysproc.c` | frames, page tables, growing, shrinking, copying and freeing address spaces |
| `Proc.dfy` | `proc.c` | CPUs, the scheduler, `fork`, `exit`, `wait`, `sleep`, `wakeup`, `kill` |
| `Pipe.dfy` | `pipe.c` | readers, writers and closers of a pipe, with counters that wrap at 32 bits |
| `Shell.dfy` | `sh.c` | tokenizer, recursive-descent parser, in-place termination of words |
| `ShellGrammar.dfy` | `sh.c` | the shell's language as a grammar, and what its sentences mean |
| `Grep.dfy` | `grep.c` | the regular-expression matcher |

Code that updates state in place is a class or a method with loops, proved against functions and predicates over
values; protocols of several processes (the log, pipes, the process table) are machines whose runs are sequences
of steps. A kernel panic is a failing result (`None`, `false`, `Fail`) or, in a machine, a step that is not enabled.
Spinlocks and sleep locks are atomic steps. The C code's `uint` arithmetic is written out where it can wrap: pipe
counters, `off + n` in `readi` and `writei`, and `sz + n` in `growproc`.

Main results:

- **Log.** Take any run: operations of any number of processes, commits, readers, crashes anywhere and inside recovery
  too. Read off its list of steps the block array that operations see: a write changes it at once, the header write of
  a commit saves it, a crash brings back what was saved. Then `bread` always shows that array; the disk always recovers
  to the saved one; the saved one is what operations saw at a moment when none of them was open; and whatever is read
  after the commits have returned survives any later crash. A disk is taken to perform block writes one at a time and
  in order.
- **Cache.** Every `bread` returns what a plain array of blocks would hold, though buffers are recycled; the
  recycled buffer is the least recently released one that is unreferenced and clean.
- **Files.** Each inode is one byte sequence: a write splices exactly its bytes, a read returns the slice clipped to
  the size, no other file changes; every block has one owner, and truncation frees exactly the inode's blocks.
  A write panics exactly if it needs more blocks than are free, and so does `filewrite`, over all its chunks. The blocks
  a write logs are given exactly; for a chunk of `filewrite` they are at most MAXOPBLOCKS, which is what the log's
  reservation needs, and that bound is reached.
- **Allocator.** The free list stays circular, ordered and fully coalesced, no unit is lost, the kernel is asked only
  when nothing fits, and freeing everything leaves one block.
- **Address spaces.** Exactly `[0, sz)` and `[HUGE_VA_OFFSET, HUGE_VA_OFFSET + hugesz)` are mapped, no frame is
  shared or both mapped and free, failures give every frame back, and a fork copies flags and contents. Growing and
  copying succeed exactly if there are frames enough for the pages and for the page tables that are lacking. All this
  holds of all processes at once, through growing, shrinking and forking.
- **Processes.** Each running process is current on exactly one CPU whenever `ptable.lock` is free; a zombie always has
  a live parent that is not asleep in `wait`; whoever holds the lock can go on.
- **Pipes.** Bytes come out in the order they went in, at most 512 in between, however often the counters wrap; and what
  went in is the writers' buffers, each in order and cut apart no more often than its writer slept.
- **Shell and grep.** The parser accepts exactly the sentences of a grammar whose commands have at most 9 arguments, and
  gives each the tree that the grammar says; so writing a command with any blanks and parsing it gives it back. NULs
  written in place never cut a word. The matcher decides membership in a declaratively given language.

## Properties that do not hold as one might expect

- Pipes: "while the lock is free a sleeping reader faces an empty pipe with a writer left" fails.
  `Pipe.StrandedReader` gives a run: a writer fills the pipe, is killed, and returns through `pipe.c:86-88` without
  waking the reader. `Pipe.ReadersRightIff` proves that the property holds throughout a run if and only if no write
  gives up on a full pipe while a reader sleeps.
- `growproc`: the size describes the address space after every call except one that shrinks to exactly 0, where the
  pages are freed and the call then fails with the old size. `Vm.Machine.Growproc` states this as an if-and-only-if.
- `log_write` tests `lh.n` against `log.size - 1` (`log.c:218`), one less than what `begin_op` reserves for, and before
  it looks whether the block is logged already. `LogPanic.PanicWithinReservation` gives a run in which an operation that
  has logged nine blocks panics on its tenth. `LogPanic.PanicExactly` proves when: a process passes if and only if the
  log holds fewer than LOGSIZE and fewer than `log.size - 1` blocks. A log longer than LOGSIZE cures this for new blocks
  only: the panic then remains exactly when the log holds LOGSIZE blocks, for a block that is already logged, and
  `LogPanic.PanicOnLoggedBlock` gives such a run.
- A commit needs a buffer that is neither pinned nor referred to, and does not always have one: it can go on if and only
  if there is one, or if only its end is left (`LogPanic.CommitStuckExactly`). `LogPanic.ReaderStopsCommit` gives a run
  in which a commit of 29 blocks is stuck because somebody reads a thirtieth. With no reader about it is stuck only
  before its first write and with NBUF blocks logged (`LogPanic.AloneStuckOnlyWhenFull`); that happens too, because the
  test of `log_write` is made without `log.lock` and two writers can pass it together (`LogPanic.RaceFillsCache`).
  Overrunning `lh.block` is proved impossible.
- `sh.c` gives `>` and `>>` the same tree (`sh.c:388-393`): `ShellGrammar.AppendRule` shows that nothing is
  appended.

## Model

| member | source | states |
|---|---|---|
| Cache.BufferCache.constructor | solution/bio.c:39-56 | all buffers linked in one circle, unreferenced, marked (0, 0); the cache shows the disk image |
| Cache.BufferCache.Bget | solution/bio.c:62-93 | returns the buffer already holding the block, or recycles the least recently released buffer that is unreferenced and clean; fails exactly if the block is not cached and all are busy |
| Cache.BufferCache.Bread | solution/bio.c:97-106 | the locked buffer shows what a plain block array holds for the block; fails exactly for want of a buffer or a bad address |
| Cache.BufferCache.ReadBlock | solution/memide.c:39-60 | an invalid buffer gets the array's contents of its block, or the address is out of range |
| Cache.BufferCache.Bwrite | solution/bio.c:110-116 | one atomic write of the buffer's data to its block, recorded in order; the buffer is clean |
| Cache.BufferCache.Brelse | solution/bio.c:121-141 | drops one reference; the last one moves the buffer to the front with a new time of release; the ring stays one circle ordered by that time |
| Cache.BufferCache.MoveToFront | solution/bio.c:130-138 | unlinking and relinking keeps the ring, its members and its order by recency |
| Cache.Recycle | solution/bio.c:79-91 | giving an unreferenced clean buffer another block keeps uniqueness, the reference counts and the contents seen |
| Cache.WriteThrough | solution/memide.c:54-56 | writing a buffer through keeps every other block as seen |
| Cache.BufferCache.Pin | solution/log.c:231 | a pinned buffer satisfies the discipline of modify-then-log and stays cached |
| Cache.NoBuffer | solution/bio.c:66-92 | bget finds no buffer for a block exactly if the pinned and referenced buffers hold NBUF blocks and not this one |
| Cache.BufferCache.BreadRoot | solution/bio.c:97-106 | for blocks of the root device success depends on those busy blocks alone, and adds this one to them |
| LogFormat.HeaderPutHeader | solution/log.c:86-113 | the header read back is the list of blocks written |
| LogFormat.HeadPut | solution/log.c:102-113 | writing the header over an empty one makes exactly the listed blocks recover to their slots |
| LogFormat.HomeWrite | solution/log.c:70-82 | installing the next slot changes nothing that a recovery yields |
| LogFormat.HeadClear | solution/log.c:199-200 | clearing the header after all blocks are installed changes nothing that a recovery yields |
| Log.Logger.WriteHead | solution/log.c:102-113 | one write of the encoded header; fails, changing nothing on disk, exactly if every buffer is busy |
| Log.Logger.ReadHead | solution/log.c:86-96 | the in-memory header becomes the one on disk |
| Log.Logger.InstallTrans | solution/log.c:70-82 | copies slot after slot to its home block; after any stop the writes done are a prefix of that list; succeeds if two buffers are free, or one where the home blocks are pinned; the pins of the logged blocks go |
| Log.Logger.WriteLog | solution/log.c:178-190 | copies each logged block from the cache to its slot; fails exactly if every buffer is busy, and then before the first write |
| Log.Logger.Commit | solution/log.c:193-202 | performs all the writes of the commit, or none; fails exactly if there is something to commit and every buffer is pinned or referred to; the cache shows the same home blocks as before |
| Log.Logger.RecoverFromLog | solution/log.c:116-122 | the writes done are a prefix of the recovery's list, all of it on success; two free buffers are enough |
| Log.Logger.LogWrite | solution/log.c:214-233 | panics exactly on a full log or outside an operation; otherwise the block is in the header once and pinned |
| Log.SlotsHoldView | solution/log.c:178-190 | after the log is written the slots hold what the cache showed, and home blocks are untouched |
| Log.InstalledView | solution/log.c:193-202 | the whole commit changes nothing that a reader of home blocks sees |
| Log.CommitPrefixRecovers | solution/log.c:193-202 | stopping a commit after any k block writes: recovery yields the old home blocks up to the header write, the whole group after it |
| Log.RecoverPrefixRecovers | solution/log.c:116-122 | stopping recovery after any k block writes leaves a disk that recovers to the same home blocks; a complete one installs them and empties the log |
| LogMachine.StepKeeps | solution/log.c:116-233 | every step of every process, reader, commit, crash and recovery keeps the invariant |
| LogMachine.GroupBecomesDurable | solution/log.c:197 | from the header write on, recovery yields block by block what the cache shows: the whole group takes effect at once |
| LogMachine.GroupCommit | solution/log.c:126-174 | committing implies no open operation; an idle log is empty; a process asleep on the log is owed a wakeup by a commit, or by an open operation while what is logged, MAXOPBLOCKS for each open operation and MAXOPBLOCKS more exceed LOGSIZE |
| LogMachine.BeginDecides | solution/log.c:126-141 | in every run begin_op lets a process in exactly if no commit runs and what is logged, with MAXOPBLOCKS for every open operation and for the new one, is at most LOGSIZE; otherwise the process sleeps |
| LogMachine.EndDecides | solution/log.c:145-163 | in every run end_op starts a commit exactly if no other operation is open; otherwise it leaves nobody asleep on the log |
| LogMachine.ReservationBound | solution/log.c:126-141 | logged blocks plus unspent reservations fit LOGSIZE in every interleaving |
| LogMachine.AppendNeverOverruns | solution/log.c:222-230 | no append passes the end of lh.block, although lh.n is compared before the lock is taken |
| LogHistory.StepShows | solution/log.c:116-233 | every step does to the cache and to what the disk recovers to what it does to the picture read off the steps: writes are seen, the header write saves, a crash brings back what was saved |
| LogHistory.CrashAtomicity | solution/log.c:69-202 | after any run with crashes readers see the writes of the steps, the disk recovers to what was saved, which is what operations saw at a moment when none was open, and with nothing open both are the same |
| LogHistory.CommittedStays | solution/log.c:146-202 | what is read once all commits have returned is kept by any further run that does not write the block again, crashes included |
| LogHistory.RecoveryRestores | solution/log.c:116-122 | after any run and a crash, an undisturbed recovery ends, with what was saved installed and an empty log |
| LogHistory.RecoveryRuns | solution/log.c:116-122 | from any stop inside recovery the remaining steps are enabled and finish it |
| LogHistory.QuiescentView | solution/log.c:146-174 | with nothing open, the cache shows what lies on disk and recovers, and the log is empty |
| LogCommit.CommitIsItsWrites | solution/log.c:178-202 | after any run that starts a commit, its first k steps leave the disk that the first k block writes of commit leave |
| LogPanic.PanicExactly | solution/log.c:218-221 | a process that has changed a block passes log_write's tests exactly if the log holds fewer than LOGSIZE and fewer than log.size - 1 blocks; with a new block exactly if fewer than log.size - 1; with a log longer than LOGSIZE it is stopped exactly when the log holds LOGSIZE blocks, and then by a block already logged |
| LogPanic.PanicWithinReservation | solution/log.c:218-219 | a legal run in which an operation with nine blocks logged cannot log its tenth |
| LogPanic.PanicOnLoggedBlock | solution/log.c:218-227 | a legal run, on a log longer than LOGSIZE, in which an operation cannot log again a block it has logged |
| LogPanic.CommitStuckExactly | solution/log.c:178-202 | in every reachable state a commit can take its next step exactly if some buffer is neither pinned nor referred to, or only its end is left |
| LogPanic.AloneStuckOnlyWhenFull | solution/log.c:178-202 | without readers a commit is stuck exactly before its first write with NBUF blocks logged |
| LogPanic.ReaderStopsCommit | solution/bio.c:78-92 | a legal run in which a reader of another block leaves a commit of 29 blocks no buffer |
| LogPanic.RaceFillsCache | solution/log.c:218-230 | a legal run in which two processes pass the test together and the logged blocks fill the cache |
| Bitmap.MarkedMark | solution/fs.c:64-69 | setting a bit marks that block and no other |
| Bitmap.MarkedUnmark | solution/fs.c:88-92 | clearing a bit frees that block and no other |
| Inodes.DinodePut | solution/fs.c:221-236 | storing an inode record and reading it back gives the inode, and the block's other records stay |
| Inodes.WrittenOnDisk | solution/fs.c:221-236 | the record on disk becomes the in-memory inode; no other record changes |
| Inodes.GrowKeeps | solution/fs.c:373-400 | giving a new block to a slot keeps every block owned by one slot and marked |
| Inodes.GrowBytes | solution/fs.c:373-400 | allocation changes no byte of any file |
| Inodes.StoreKeeps | solution/fs.c:497-503 | writing into a file's block keeps ownership |
| Inodes.StoreBytes | solution/fs.c:497-503 | writing into a file's block changes exactly those bytes of that file |
| Inodes.TruncatedKeeps | solution/fs.c:408-435 | freeing all slots of an inode leaves every other block owned as before |
| Inodes.TruncatedBytes | solution/fs.c:408-435 | and no byte of another file changes |
| Fs.FileSystem.Balloc | solution/fs.c:57-78 | the first free block, now marked and zeroed; fails only if every block is in use |
| Fs.FileSystem.Bfree | solution/fs.c:82-95 | clears that block's bit only and logs the map block; panics exactly on a free block |
| Fs.FileSystem.Bmap | solution/fs.c:373-400 | the block of the file's slot, allocated if missing; no byte and no other slot changes; names the blocks logged; panics on a block number out of range |
| Fs.FileSystem.Iupdate | solution/fs.c:221-236 | writes that inode's record and logs its block |
| Fs.FileSystem.Itrunc | solution/fs.c:408-435 | the file is empty, exactly the blocks it owned are free, each freed once, no other byte changes |
| Fs.FileSystem.Readi | solution/fs.c:453-476 | the slice of the contents clipped to the size, changing nothing; -1 exactly for a bad or wrapping range |
| Fs.FileSystem.Writei | solution/fs.c:482-511 | writes exactly its bytes and sets the size; -1 exactly for a range that starts behind the end of the file or ends beyond MAXFILE blocks, changing nothing; panics exactly if the range needs more blocks than are free; logs exactly the blocks that the range takes, at most MAXOPBLOCKS for a chunk; fills no slot of another file |
| Fs.WroteContent | solution/fs.c:482-511 | such a write splices the bytes into the file's contents and leaves the other files' contents |
| WriteCost.FreeCount | solution/fs.c:57-78 | the free blocks are the data blocks without an owner, so that allocation can be counted |
| WriteCost.LoggedMore | solution/fs.c:497-503 | a write of several blocks logs what the writes of the single blocks log |
| WriteCost.MissingBound | solution/fs.c:373-400 | a range needs a free block for each of its blocks that is missing and one for an indirect block |
| WriteCost.LoggedBound | solution/file.c:126-133 | the blocks logged are at most the data blocks, a map block for each block that was missing, and the indirect block |
| Fs.FileSystem.Filewrite | solution/file.c:118-156 | writes all of the request, or, if it starts behind the end of the file or ends beyond MAXFILE blocks, exactly the chunks that fit, and then fails; panics exactly if those chunks need more blocks than are free; one operation per chunk, each of which logs at most MAXOPBLOCKS blocks |
| Fs.ChunkFails | solution/file.c:131-141 | a chunk finds too few free blocks exactly if the range up to its end did at the start of the call |
| TightVolume.CrowdedVolume | solution/fs.c:57-78 | a sound volume with four free blocks under four map blocks and a file about to need an indirect block |
| TightVolume.BoundIsReached | solution/file.c:126-133 | on such a volume a chunk written in mid-block logs exactly MAXOPBLOCKS blocks |
| Umalloc.Pool.FindSlot | solution/umalloc.c:50-53 | the walk from freep ends, at the last list entry below the block |
| Umalloc.Pool.Vfree | solution/umalloc.c:47-65 | the block's units are inside one free block, no other live block changes, the list stays circular, ordered and coalesced, no unit is lost |
| Umalloc.Pool.Morecore | solution/umalloc.c:90-104 | on success the kernel's units are in the pool and the request fits; otherwise nothing changes |
| Umalloc.Pool.Search | solution/umalloc.c:144-156 | one walk around the circle finds a fitting block if there is one |
| Umalloc.Pool.Take | solution/umalloc.c:145-155 | hands out a whole block or its tail, keeping the list, and touching no live block |
| Umalloc.Pool.Malloc | solution/umalloc.c:139-160 | asks the kernel exactly if nothing fits, fails exactly if that fails, else returns a new live block of the size asked; no unit is lost |
| Umalloc.Allocator.Vmalloc | solution/umalloc.c:166-201 | the same from the pool asked for, with the least number of units that have room for nbytes; no unit is lost, no live block changes, the other pool is untouched |
| Umalloc.Allocator.Vfree | solution/umalloc.c:39-87 | the address test picks the pool the block came from; the block is free there, no unit is lost and no other live block changes |
| Umalloc.FreeKeeps | solution/umalloc.c:54-63 | all four ways of joining keep the pool sound |
| Umalloc.TakeWhole | solution/umalloc.c:146-147 | unlinking a block keeps the pool sound |
| Umalloc.TakeTail | solution/umalloc.c:148-152 | cutting a block keeps the pool sound |
| Umalloc.Conservation | solution/umalloc.c:39-201 | sizes of free and live blocks add up to the units got from the kernel |
| Umalloc.FreedEverything | solution/umalloc.c:39-87 | once everything is freed, a contiguous heap is the sentinel plus one block covering it |
| PageTables.MapKeeps | solution/vm.c:92-96 | entering a frame changes that translation only and keeps every frame in one place |
| PageTables.UnmapKeeps | solution/vm.c:360-367 | clearing an entry changes that translation only and releases its frame |
| PageTables.InstallKeeps | solution/vm.c:45-52 | a new page table changes no translation |
| Spaces.NoSharing | solution/vm.c:247-274 | no base frame is mapped twice, nor both mapped and free |
| Spaces.NoHugeSharing | solution/vm.c:280-305 | the same for 4 MB frames |
| Spaces.SizeFits | solution/vm.c:247-274 | by pigeonhole an address space whose base pages fill [0, sz) has sz at most PHYSTOP, below HUGE_VA_OFFSET, so the address test of vfree separates the pools |
| Spaces.HugePagesFit | solution/vm.c:280-305 | an address space has no more 4 MB pages than there are 4 MB frames |
| Spaces.GrowUndo | solution/vm.c:259-271 | undoing a growth restores the translation and loses no frame but to page tables |
| Spaces.BornGone | solution/vm.c:490-492 | freeing a half-made copy restores everything |
| Spaces.ForkCounts | solution/sysproc.c:139-164 | parent and child report the same page counts, with hugesz rounded up for 4 MB pages |
| Vm.Machine.constructor | solution/kalloc.c:70-87 | at boot every base frame and every 4 MB frame is free once |
| Vm.Machine.Kalloc | solution/kalloc.c:140-152 | the head of the free list, which leaves it; fails exactly if the list is empty |
| Vm.Machine.Kfree | solution/kalloc.c:93-110 | the frame is free and filled with junk |
| Vm.Machine.Walk | solution/vm.c:36-55 | a page table for the page, made if asked and possible; no translation changes |
| Vm.Machine.MapPage | solution/vm.c:89-103 | maps that page only; fails exactly if a table is needed and there is no frame, changing nothing |
| Vm.Machine.Deallocuvm | solution/vm.c:313-373 | unmaps and frees exactly the pages between the sizes |
| Vm.Machine.Allocuvm | solution/vm.c:247-274 | zeroed pages up to newsz, with newsz at most PHYSTOP, exactly if there are frames enough for the pages and the page tables lacking; or a failure that leaves the translation and all frames but page tables |
| Spaces.FramesAdded | solution/vm.c:39-56 | a new page takes one frame, and one more where its page table is lacking |
| Vm.Machine.Growproc | solution/proc.c:159-175 | the size describes the address space after every call, unless the call shrinks to exactly 0; a growth succeeds exactly if it stays below KERNBASE and there are frames enough; other address spaces are untouched |
| Vm.Machine.Growhugeproc | solution/proc.c:180-196 | zeroed 4 MB pages up to the new size, mapped from HUGE_VA_OFFSET on without gap; nothing else changes |
| Vm.Machine.Setupkvm | solution/vm.c:144-161 | an address space with no user page, made of 65 frames, exactly if there are as many; or everything as before |
| Vm.Machine.Freevm | solution/vm.c:407-432 | every frame of the address space is free, each freed once; nothing else changes |
| Vm.Machine.Copyuvm | solution/vm.c:450-493 | the child has the same sizes, flags and contents on frames that were free, and nothing else changes, exactly if there are frames enough for a directory, 64 kernel page tables, the pages and their page tables; or every frame is back |
| Spaces.FramesForAll | solution/vm.c:459-475 | n pages of a new address space take n frames and one for every 1024 pages or part of them |
| Vm.Machine.Procpgdirinfo | solution/sysproc.c:139-164 | counts the pages, and the 4 MB pages, whose entries have PTE_P and PTE_U set |
| Spaces.SpaceElsewhere | solution/vm.c:247-274 | a change to one address space leaves the size and the 4 MB part of every other one as they were |
| Vm.Processes.Userinit | solution/proc.c:121-136 | the first process has one page with the given contents, and its sizes say so, exactly if there are 67 frames |
| Vm.Processes.Growproc | solution/proc.c:159-175 | every process has exactly the pages its sizes say after the call, unless the caller shrinks to exactly 0; a growth succeeds exactly if there are frames enough |
| Vm.Processes.Growhugeproc | solution/proc.c:180-196 | the same for growing the 4 MB part |
| Vm.Processes.Fork | solution/proc.c:202-222 | the same for fork: the child gets its parent's sizes and contents exactly if there are frames enough, or everything is as before |
| Proc.Wakeup1 | solution/proc.c:480-487 | exactly the sleepers on the channel become runnable |
| Proc.ExitScan | solution/proc.c:274-287 | wakes the parent, gives the children to init and wakes init if one is a zombie, then becomes a zombie |
| Proc.WaitScan | solution/proc.c:304-323 | the first zombie child if there is one, and whether there are children |
| Proc.StepKeeps | solution/proc.c:202-414 | every step of every CPU keeps the invariant |
| Proc.RunningIsCurrent | solution/proc.c:345-414 | with ptable.lock free, each running process is current on exactly one CPU and whatever is current is running |
| Proc.NoLostZombie | solution/proc.c:250-334 | every zombie's parent is alive and not asleep in wait, also after reparenting |
| Proc.SchedIsSafe | solution/proc.c:388-404 | whoever enters sched holds ptable.lock and is no longer running, so that two of its four panics never happen |
| Proc.StepEffects | solution/proc.c:407-516 | after wakeup nobody sleeps on the channel, a killed process does not sleep, who yields can run, who sleeps does so on its channel; no other process is touched |
| Proc.HolderGoesOn | solution/proc.c:298-414 | whoever holds ptable.lock has a next step, so no run is stuck with the lock held |
| Pipe.WrapCompare | solution/pipe.c:85 | within one ring's length, wrapped counters compare as the true counts do |
| Pipe.StepKeeps | solution/pipe.c:60-121 | every step keeps the ring, the lock and what sleepers rely on |
| Pipe.PipeOrder | solution/pipe.c:79-121 | bytes delivered are a prefix of bytes stored, at most 512 in flight; with the lock free a sleeping writer faces a full pipe that has a reader |
| Pipe.WriteReturns | solution/pipe.c:79-97 | when a write ends, gives up or sleeps, the bytes it has counted, all of its buffer if it ends, were stored since its call, in order, and cut apart no more often than it slept |
| Pipe.ByteOrigin | solution/pipe.c:93 | every byte ever stored is the next byte of some writer's buffer |
| Pipe.ReadReturns | solution/pipe.c:101-121 | a read returns the last bytes delivered; nothing only at end of file, with everything delivered and no writer left |
| Pipe.ReadersRightIff | solution/pipe.c:84-92 | sleeping readers face an empty pipe with a writer throughout a run exactly if no write gives up on a full pipe while a reader sleeps |
| Pipe.EndsAre | solution/pipe.c:60-76 | in every run each end is open until somebody closes that end, and the pipe is freed exactly when both have been closed |
| Pipe.CloseWakes | solution/pipe.c:60-69 | closing an end leaves nobody asleep at the other |
| Pipe.HolderGoesOn | solution/pipe.c:79-121 | whoever holds the pipe's lock has a next step |
| Pipe.StrandedReader | solution/pipe.c:86-88 | a run that leaves a reader asleep beside a full pipe |
| Shell.Peek | solution/sh.c:311-320 | skips white space and tests the next character |
| Shell.GetToken | solution/sh.c:266-308 | the next token, its ends and the cursor |
| Shell.TokenOk | solution/sh.c:266-308 | a token is blanks, then a maximal word, a symbol, >> or the end, then blanks up to the next token |
| Shell.BlanksIgnored | solution/sh.c:272-273 | blanks in front of a command do not matter |
| Shell.ParseCmd | solution/sh.c:328-342 | the parser terminates on every line and refines the grammar's functions |
| Shell.ParseLine | solution/sh.c:345-359 | lists and background commands |
| Shell.ParsePipe | solution/sh.c:362-372 | pipelines |
| Shell.ParseRedirs | solution/sh.c:375-397 | redirections, or the error of a missing file |
| Shell.ParseBlock | solution/sh.c:400-413 | parenthesised blocks, or the error of a missing parenthesis |
| Shell.ParseExec | solution/sh.c:416-446 | simple commands, with at most 9 arguments |
| Shell.LineOk | solution/sh.c:345-446 | in an accepted line every argument and file name is a whole word, and no command has more than 9 arguments |
| Shell.NulTerminate | solution/sh.c:450-493 | writes a NUL behind every word and nothing else |
| Shell.EndsOutside | solution/sh.c:450-493 | no end of a word lies inside a word |
| Shell.ParseInPlace | solution/sh.c:328-342 | after termination in place, every argument and file name reads as the word the tokenizer delimited |
| ShellGrammar.Complete | solution/sh.c:328-446 | every line whose lexemes are a sentence of the grammar, with at most 9 arguments a command, is accepted and gets the sentence's tree |
| ShellGrammar.Sound | solution/sh.c:328-446 | every accepted line is such a sentence and gets its tree |
| ShellGrammar.AcceptsExactly | solution/sh.c:328-446 | so a line is accepted exactly if its lexemes are such a sentence |
| ShellGrammar.ItemsRead | solution/sh.c:416-446 | words and redirections in any order become one command with the words in order, inside the redirections in order |
| ShellGrammar.SentenceRead | solution/sh.c:345-372 | chains with any number of ampersands, joined by semicolons, up to the end or a closing parenthesis |
| ShellGrammar.ReadsBack | solution/sh.c:266-308 | lexemes written with any blanks, and with some between two words or two greater-than signs, are read back |
| ShellGrammar.CommandParses | solution/sh.c:416-446 | words and redirections written in any order, with any blanks, parse to that command |
| ShellGrammar.SentenceParses | solution/sh.c:328-446 | a sentence written with any blanks parses to its tree |
| ShellGrammar.AppendRule | solution/sh.c:388-393 | >> gives the same tree as >, whatever stands before and after the file name |
| ShellGrammar.RoundTrip | solution/sh.c:328-446 | parsing the parenthesised writing of any command tree, with any blanks, returns that tree |
| Grep.MatchHere | solution/grep.c:85-96 | true exactly if the text begins with a string in the language of the pattern |
| Grep.MatchStar | solution/grep.c:99-106 | the same for a starred character followed by a pattern |
| Grep.Match | solution/grep.c:73-82 | true exactly if some position, or the start under ^, begins such a string |
| Grep.BeginsMany | solution/grep.c:99-106 | a starred item takes any number of fitting characters |
| Grep.BeginsOne | solution/grep.c:93-94 | a plain item takes one fitting character |
| Grep.RenderItems | solution/grep.c:85-96 | reading a pattern as items loses nothing of it |
| Grep.ItemsRender | solution/grep.c:85-96 | a list of items is what its pattern reads as exactly if an end comes last, a plain $ does not, and no star follows a plain character |

## Left out

- Vm.Machine.Growproc: a growth beyond HUGE_VA_OFFSET of a process that has 4 MB pages is excluded by a precondition, because undoing it walks into 4 MB pages as if they were page tables (`vm.c:336-353`); the size before the call is taken to be positive, as every process's is.
- Vm.Machine.Allocuvm: the same restriction.
- Vm.Processes.Growproc: the same restriction.
- Vm.Processes.Growhugeproc: as Vm.Machine.Growhugeproc.
- Vm.Processes.Fork: as Vm.Machine.Copyuvm; processes are told apart by their page directories, and exit is not among the calls; the frames counted are those left when allocproc has taken the kernel stack.
- Vm.Processes.Userinit: the frames counted are those left when allocproc has taken the kernel stack.
- Vm.Machine.Growhugeproc: only n > 0 and while there are 4 MB frames enough; the failing path and n <= 0 tear down 4 MB pages.
- Vm.Machine.Copyuvm: assumes 4 MB frames enough for the copy; failing in the loop over 4 MB pages tears them down.
- Vm.Machine.Freevm: only address spaces without 4 MB pages.
- Vm.Machine.Deallocuvm: only ranges without 4 MB pages.
- Vm.Machine.Setupkvm: the kernel's half of an address space is its page-table frames only; the entries in them, and the window on 4 MB frames, are not modelled.
- Vm.Machine.MapPage: mappages for one page, which is how user pages are mapped.
- Umalloc.Allocator.Vmalloc: request sizes below 2 GB less a header; what sbrk and shugebrk answer is a parameter, assumed fresh and on the right side of HUGE_VA_OFFSET, which `Spaces.SizeFits` shows for sbrk.
- Fs.FileSystem.Writei: inodes of devices, which are handed to the device; after the panic nothing is claimed.
- Fs.FileSystem.Readi: inodes of devices.
- Log.Logger.Commit: nobody else uses the cache while the method runs, and nobody holds the lock of a block that is to be copied; readers of other blocks may hold theirs. What happens in between is the subject of LogMachine and LogPanic.
- LogHistory.CrashAtomicity: a process modifies a block it has locked and then calls log_write before releasing it; operations that break this are not runs of the machine. A commit step that has to wait for a reader's lock is taken when the reader is done.
- Pipe.PipeOrder: the loops of pipewrite and piperead are steps of a machine on values, not methods on a shared object.
- Proc.SchedIsSafe: the tests on nested locks and on interrupts (`proc.c:395-396` and `proc.c:399-400`).
- Proc.StepKeeps: the sections under ptable.lock are single steps, and other locks are not modelled.
- Files and directories: `ialloc`, `iget`, `iput`, path lookup, directory entries and link counts.
- Devices, the console, interrupts, system-call dispatch, `exec`, and booting.
- Teardown of 4 MB pages, whose frames the code does not recover.
- The policy for transparent huge pages, beyond the choice of pool.
- Liveness: no claim that a sleeping process is ever scheduled.

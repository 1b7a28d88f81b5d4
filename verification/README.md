# xv6 verification

A Dafny model of the hard parts of this xv6 (RISC-V, with semaphores and page reference counts), and
proofs about it. The file `dfyconfig.toml` lists the sources, so `dafny verify dfyconfig.toml` checks
everything.

The model takes the form of the code. What the code updates in place is a class whose methods have
the loops of the code and are proved against specification functions on values. What several threads
or the disk and the machine do together is a step system, and its theorems are about every run. A
panic is either an outcome of the model or a precondition that is proved where the code calls.

| files | what they are about |
|---|---|
| `LogSpec`, `Log`, `LogSystem` | The redo log: crash atomicity of commit and recovery after any write, group commit, reservation, the buffers a commit needs, and the panics that the reservation does not exclude |
| `BufferRing`, `BufferCache` | The buffer cache as a block store: one buffer per block, the latest contents, the LRU ring |
| `FsSpec`, `FileSpec`, `FileSystem`, `FileOps` | Bitmap and block ownership, files as byte sequences, and that filewrite, create, link, unlink and iput stay within their share of the log |
| `DirSpec`, `LinkSpec`, `LinkOps`, `Links`, `LinkOverflow` | Directories as finite maps, link counts through create, link and unlink, the directory tree |
| `InodeTable`, `InodeBasics`, `InodeSafety`, `InodeLookup`, `InodeGone`, `InodeOrphans` | The inode table over all interleavings of iget, ilock, iput and ialloc, and exactly when a reference is safe |
| `VmSpec`, `Memory`, `Teardown`, `UserMemory` | Page ownership over Sv39 trees (section 4.4 of the RISC-V Privileged Architecture v1.12), fork's copy, teardown, and lazy allocation as flat memory |
| `Semaphores`, `ExitWait`, `Processors` | sleep and wakeup, semaphores, the scheduler's lock hand-off, fork, exit and wait, alone and on any number of CPUs |
| `HeapSpec`, `HeapRing`, `Umalloc` | The user heap allocator on its circular list |
| `VirtioDisk` | The disk driver's rings (sections 2.6 and 5.2 of VIRTIO 1.1) |
| `Pipe` | The pipe's ring with 32-bit counters |
| `ShellSpec`, `ShellPrint`, `ShellRoundTrip`, `ShellWords`, `Shell` | The shell's parser |

Properties that the code does not have as its design suggests, each with a concrete run or input and
the exact condition:

- An absorbed `log_write` panics when the log is full, although it needs no room
  (`LogSystem.RewritePanics`); exactly then, `LogSystem.WritePanicsExactly`.
- A commit of NBUF blocks finds no buffer to write the log with (`LogSystem.CommitPanics`), nor does one
  of fewer blocks while readers hold the rest (`LogSystem.ReaderPanics`); exactly then,
  `LogSystem.CommitPanicsExactly`.
- `create` and `link` in a directory that has been removed meanwhile break the link counts
  (`Links.CreateInRemoved`), and so does the 32768th link to one inode, since nlink has 16 bits
  (`LinkOverflow.LinkOverflows`); exactly then, `LinkOps.CreateCountsExactly`,
  `LinkOps.WholeLinkExactly`.
- After `chdir("..")` in a removed directory whose parent has been removed too, `ilock` panics with "no
  type" (`InodeGone.NoTypeRun`, in a tree that `Links.DotDotGone` builds), or the parent is freed with
  two references (`InodeGone.FreedTwiceHeld`); a run is safe exactly if no `iget` is of such an inode,
  `InodeSafety.RunSafeExactly`, and which lookups are is `InodeLookup.LookupUsable`.
- An inode number that is reused while `iput` is finishing can be left allocated with no links and no
  reference (`InodeOrphans.OrphanRun`); exactly when, `InodeOrphans.OrphanExactly`.
- `sem_up` of a count of 2^31 - 1 makes it negative (`Semaphores.OverflowRun`); exactly then,
  `Semaphores.CountConserved`, `Semaphores.StepConserves`.
- `malloc` of a large size hands out memory that the process does not have (`Umalloc.HugeRequest`);
  exactly when, `Umalloc.Heap.Malloc`.

Where comments and code differ, the model follows the code: the comment on `sem_up` says it wakes one
waiting process (kernel/sem.c:58), and the code wakes all of them.

What the step systems take for granted: a disk write of one block is atomic; lock operations are
sequentially consistent; a changed inode is written back before it is unlocked; an operation of the
log appends at most MAXOPBLOCKS blocks (which is what `FileSystem.FileSystem.Filewrite` proves for
writes and `FileOps.CallFits` for the other calls, on the disk that mkfs makes); the device completes
each request it is offered once, and successfully. Signed overflow wraps around, as on the
processor; the C standard leaves it undefined.

## Model

| member | source | states |
|---|---|---|
| `LogSpec.WriteLogAt` | kernel/log.c:178-191 | After i turns of `write_log` log slot j < i holds the j-th logged data and every other block is as it was |
| `LogSpec.InstallAt` | kernel/log.c:68-83 | After i turns of `install_trans` home block b holds the log slot of its entry if that is among the first i, and every other block, the log included, is as it was |
| `LogSpec.InstallStep` | kernel/log.c:73-82 | One turn of `install_trans` copies between blocks of the disk as it is now, which gives the same as copying from the disk before the loop |
| `LogSpec.HeadWritten` | kernel/log.c:86-114 | Writing a header and reading it back gives the same block numbers, and no home block changes |
| `LogSpec.InstallTwice` | kernel/log.c:68-83 | Installing all of a log over a disk where part of it is installed already gives the same disk as installing it once |
| `LogSpec.RecoverAtomic` | kernel/log.c:116-123 | After any number of writes of a recovery the disk still recovers to the same home blocks; after the last write they are in place and the log is empty |
| `LogSpec.InstalledIsOverlay` | kernel/log.c:68-83 | Installing a committed log gives every home block its logged contents, and leaves the rest |
| `LogSpec.CommitPoint` | kernel/log.c:193-203 | A disk with the log and its header written recovers to the contents after the whole transaction |
| `LogSpec.CommitAtomic` | kernel/log.c:193-203 | A crash after k writes of `commit` recovers to the contents before the transaction up to the header write, and to those after all of it from then on |
| `LogSpec.CrashedRecoveriesHarmless` | kernel/log.c:116-123 | Any finite number of recoveries, each crashing after any number of its writes, does not change what the disk recovers to |
| `LogSpec.CrashAtomicity` | kernel/log.c:68-123 | `commit` crashes after any write, then any number of recoveries crash anywhere, then one completes: the home blocks are exactly those before the transaction or exactly those after it |
| `LogSpec.CommitImagesAt` | kernel/log.c:193-203 | The k-th disk that the writes of `commit` leave is the crash image after k + 1 writes, so the crash theorem is about every intermediate disk of the code |
| `LogSpec.RecoverImagesAt` | kernel/log.c:116-123 | The same for the writes of a recovery |
| `LogSpec.AppendKeepsLoggable` | kernel/log.c:225-233 | Appending a block not logged yet keeps the logged block numbers distinct home blocks |
| `LogSpec.LogWriteKeepsMem` | kernel/log.c:214-235 | `log_write` keeps: logged blocks are distinct, each pinned exactly once and cached, unlogged blocks clean |
| `LogSpec.UnpinAt` | kernel/log.c:68-83 | Installing a commit takes exactly one pin off each logged block and none off others |
| `LogSpec.CommittedMem` | kernel/log.c:193-203 | After a commit the log is empty, nothing is pinned and every cached block equals its disk block |
| `LogSpec.PinnedInCommit` | kernel/log.c:68-83 | After i blocks of a commit are installed, exactly the rest of the log is pinned |
| `LogSpec.RefsCount` | kernel/log.c:68-83 | The buffers in use are as many as the logged blocks not yet installed, plus those that processes hold of other blocks |
| `LogSpec.HomeBuffer` | kernel/log.c:68-83 | The next block to be installed is still pinned, so its buffer is found |
| `Log.Log.constructor` | kernel/log.c:54-65 | Start-up state before recovery: empty in-memory log, nothing cached, no operation |
| `Log.Log.Bwrite` | kernel/bio.c:106-112 | One atomic block write, recorded as the next crash point |
| `Log.Log.Bget` | kernel/bio.c:58-89 | Fails, which is the panic, exactly when all NBUF buffers are in use for other blocks, as `BufferCache.BufferCache.Bget` proves |
| `Log.Log.Hold` | kernel/fs.c:472-499 | A process that reads gets the buffer of a block, under the same condition, and keeps it for a while |
| `Log.Log.Unhold` | kernel/bio.c:116-137 | And gives it back |
| `Log.Log.TryBeginOp` | kernel/log.c:126-142 | One pass of `begin_op`: admitted exactly when no commit runs and the log has room for MAXOPBLOCKS more blocks for every operation |
| `Log.Log.Find` | kernel/log.c:225-228 | The absorption scan finds the first slot with the block, or the end |
| `Log.Log.Write` | kernel/log.c:214-235 | `log_write` panics exactly when the log is full; otherwise appends and pins, or absorbs |
| `Log.Log.WriteHead` | kernel/log.c:102-114 | One disk write that puts count and block numbers in the header block |
| `Log.Log.ReadHead` | kernel/log.c:86-97 | The in-memory log becomes the header on disk |
| `Log.Log.WriteLog` | kernel/log.c:178-191 | The disk and every intermediate disk are those of the write_log images; fails exactly when it has a block to write and finds no buffer |
| `Log.Log.InstallTrans` | kernel/log.c:68-83 | The disk and every intermediate disk are those of the install images; unpins only outside recovery |
| `Log.Log.Commit` | kernel/log.c:193-203 | Fails exactly when something is logged and the logged blocks together with the other blocks that processes hold are NBUF; otherwise its intermediate disks are the commit images, the home blocks become the overlay of the logged data, and the log is empty |
| `Log.Log.CommitGroup` | kernel/log.c:160-174 | The same with the committing flag set around it |
| `Log.Log.LogTransaction` | kernel/log.c:196-198 | The first half of `commit` ends at the commit point with exactly the log and the header written |
| `Log.Log.CommitWrites` | kernel/log.c:193-203 | All 2n + 2 writes of `commit` of a non-empty log, in order |
| `Log.Log.InstallAndClear` | kernel/log.c:199-201 | The second half of `commit`: installs, unpins, empties the header |
| `Log.Log.ClearHead` | kernel/log.c:200-201 | The header on disk is emptied with one write |
| `Log.Log.EndOp` | kernel/log.c:146-175 | The last operation of a group commits everything logged; another one only leaves; panics exactly in a commit or, for the last one, when the commit finds no buffer |
| `Log.Log.RecoverFromLog` | kernel/log.c:116-123 | Home blocks become the recovered contents, the log is empty, and each intermediate disk is a recovery image |
| `LogSystem.InCommitNext` | kernel/log.c:178-203 | The next write of a running commit keeps the state ready for a crash, and makes everything durable exactly at the header write |
| `LogSystem.CommitNext` | kernel/log.c:193-203 | After the k-th write of a commit a reboot brings back the old durable events up to the header write and all events from then on |
| `LogSystem.AppendFits` | kernel/log.c:126-142 | In every reachable state an operation with budget left finds room in the log |
| `LogSystem.StepKeeps` | kernel/log.c:35-235 | begin_op, log_write, end_op, each write of commit, readers that take and leave buffers, a crash and each write of recovery keep the invariant, in any interleaving |
| `LogSystem.EveryRunCrashSafe` | kernel/log.c:126-203 | In every run a reboot brings back exactly the writes of a prefix of the events, and no operation of that prefix is half finished |
| `LogSystem.DurableKept` | kernel/log.c:146-203 | No step, a crash included, loses or changes what is durable |
| `LogSystem.DurableForever` | kernel/log.c:146-203 | The same for every run |
| `LogSystem.ReadsLatest` | kernel/log.c:214-235 | While operations run a reader gets exactly the latest write of every block |
| `LogSystem.CommitMakesDurable` | kernel/log.c:146-175 | When the commit of a group is done, everything before it is durable and in place |
| `LogSystem.WritePanicsExactly` | kernel/log.c:219-223 | `log_write` and the read before it panic exactly when the log is full, and then only on a block that is logged already by an operation that has used its whole budget, or when every buffer is in use for another block |
| `LogSystem.CommitPanicsExactly` | kernel/log.c:178-191 | The next write of a commit panics exactly when the logged blocks not yet installed and the other blocks that processes hold are NBUF together |
| `LogSystem.FillRuns` | kernel/log.c:126-142 | Three operations of ten blocks each fill the log, step by step |
| `LogSystem.RewritePanics` | kernel/log.c:219-223 | A concrete run of operations within their budget that ends with `log_write` panicking on an absorbed write |
| `LogSystem.CommitPanics` | kernel/log.c:178-191 | A concrete run within budget that ends with `commit` of 30 blocks panicking |
| `LogSystem.ReaderPanics` | kernel/log.c:178-191 | A concrete run in which 29 blocks are logged and a reader outside any operation holds one more, and `commit` panics |
| `BufferRing.Unlinked` | kernel/bio.c:128-129 | Taking a node out by its two neighbours leaves the ring of the other nodes in order |
| `BufferRing.Pushed` | kernel/bio.c:130-133 | Linking a node in after the head gives the ring with it at the front |
| `BufferCache.Referenced` | kernel/bio.c:66-73 | One more reference keeps buffers unique per block, counts accounted for, and data current |
| `BufferCache.Recycled` | kernel/bio.c:77-87 | Giving an unreferenced buffer to a block that has none loses no data and keeps one buffer per block |
| `BufferCache.Dereferenced` | kernel/bio.c:122-126 | Dropping a reference keeps the invariant if a buffer newer than the disk keeps another reference |
| `BufferCache.DirtyHere` | kernel/bio.c:58-89 | A block newer than its disk copy is so in its one buffer |
| `BufferCache.AllInUse` | kernel/bio.c:77-89 | With every buffer referenced, as many different blocks are in use as there are buffers |
| `BufferCache.FreeOrCached` | kernel/bio.c:66-87 | A buffer of the block, or one without references, means that the block is in use or fewer are than there are buffers |
| `BufferCache.Filled` | kernel/bio.c:92-103 | Filling a locked buffer from disk gives the latest contents; changing it makes these the latest |
| `BufferCache.Written` | kernel/bio.c:106-112 | After a write the disk holds the latest contents |
| `BufferCache.BufferCache.constructor` | kernel/bio.c:36-53 | All buffers in one ring, for block 0 of device 0, and the latest contents are those on disk |
| `BufferCache.BufferCache.LinkAll` | kernel/bio.c:43-52 | The ring is a cyclic doubly linked permutation of the head and all buffers |
| `BufferCache.BufferCache.PushFront` | kernel/bio.c:130-133 | Links a buffer in at the front of the ring |
| `BufferCache.BufferCache.Bget` | kernel/bio.c:58-89 | A cached block keeps its buffer; otherwise the unreferenced buffer nearest the least recently used end is recycled; panics exactly when as many other blocks are in use as there are buffers |
| `BufferCache.BufferCache.FindCached` | kernel/bio.c:66-73 | The forward scan finds the block's buffer if there is one |
| `BufferCache.BufferCache.FindUnused` | kernel/bio.c:77-87 | The backward scan finds the unreferenced buffer nearest that end |
| `BufferCache.BufferCache.Lock` | kernel/sleeplock.c:21-31 | The sleep-lock of a referenced buffer passes to one of its waiters |
| `BufferCache.BufferCache.Bread` | kernel/bio.c:92-103 | The data of a buffer returned by bread is the latest contents of its block |
| `BufferCache.BufferCache.Modify` | kernel/buf.h:1-11 | The holder's change becomes the latest contents |
| `BufferCache.BufferCache.Bwrite` | kernel/bio.c:106-112 | The disk block becomes the buffer's data |
| `BufferCache.BufferCache.Releasesleep` | kernel/bio.c:116-121 | The first step of brelse unlocks the buffer and keeps its reference; other threads may come between the two |
| `BufferCache.BufferCache.Brelse` | kernel/bio.c:122-137 | The second step drops the reference; the buffer moves to the front exactly when nobody refers to it |
| `BufferCache.BufferCache.MoveToFront` | kernel/bio.c:126-134 | The ring with that buffer at the front and the others in order |
| `BufferCache.BufferCache.Bpin` | kernel/bio.c:139-144 | One more reference and one more pin |
| `BufferCache.BufferCache.Bunpin` | kernel/bio.c:146-151 | Undoes a pin |
| `FsSpec.SetBitOfAt` | kernel/fs.c:75-79 | Setting or clearing a bit of a bitmap byte changes that bit only |
| `FsSpec.BitPosition` | kernel/fs.c:91-105 | Block, byte and bit position in the bitmap determine the block number |
| `FsSpec.WithBitAt` | kernel/fs.c:65-105 | Marking a block changes its own bit, no other bit, and no data block |
| `FsSpec.WithWordAt` | kernel/fs.c:409-415 | Writing an entry of an indirect block changes that entry only |
| `FsSpec.EmptyOwned` | kernel/fs.c:65-105 | A disk whose inodes hold no blocks and whose bitmap marks the metadata is well owned, so the invariant has an instance |
| `FsSpec.IndirectOwned` | kernel/fs.c:400-408 | An inode's indirect block is a data block it alone owns |
| `FsSpec.BallocedAt` | kernel/fs.c:65-88 | balloc marks and zeroes one block and changes nothing else |
| `FsSpec.AllocatedBlock` | kernel/fs.c:382-421 | What storing a fresh block does to the bitmap and to each data block |
| `FsSpec.AllocatedAt` | kernel/fs.c:382-421 | A fresh block fills its slot (direct, indirect, or entry) and leaves what every other slot names |
| `FsSpec.AllocatedOwned` | kernel/fs.c:382-421 | Allocation keeps ownership: set bits are exactly metadata and blocks named by slots, each by one slot |
| `FsSpec.AllocatedData` | kernel/fs.c:382-421 | Allocation changes no file data |
| `FsSpec.StoredAt` | kernel/fs.c:505-539 | Writing a data block changes no slot |
| `FsSpec.StoredData` | kernel/fs.c:505-539 | It changes that slot's data and no other |
| `FsSpec.StoredOwned` | kernel/fs.c:505-539 | It keeps ownership |
| `FsSpec.DeadStep` | kernel/fs.c:425-453 | Passing the next slot makes exactly its block dead, and it was not before |
| `FsSpec.FreedStep` | kernel/fs.c:425-453 | The next slot's block is still marked, so bfree does not find it free, and freeing it advances the truncation |
| `FsSpec.FreedNoIndirect` | kernel/fs.c:439-449 | Without an indirect block there are no entries to free |
| `FsSpec.TruncatedAt` | kernel/fs.c:425-453 | After truncation the inode's slots name nothing and other inodes' slots what they did |
| `FsSpec.TruncatedOwned` | kernel/fs.c:425-453 | Truncation keeps ownership and releases exactly that inode's blocks |
| `FileSpec.GrownByOne` | kernel/fs.c:382-421 | A bmap step is a growth: more blocks for one inode, no byte of any file changed |
| `FileSpec.GrownBytes` | kernel/fs.c:382-421 | Growing changes no byte of any file |
| `FileSpec.StoreWrites` | kernel/fs.c:516-528 | Patching one block replaces exactly those bytes of the file |
| `FileSpec.PieceOfBlock` | kernel/fs.c:471-496 | A stretch of a file within one block is the stretch of that block |
| `FileSpec.WroteNext` | kernel/fs.c:516-528 | Writing twice in a row is writing the concatenation |
| `FileSpec.WroteContents` | kernel/fs.c:505-539 | As whole files: exactly bytes [off, off + len) are replaced, the file is extended to hold them, the rest is kept |
| `FileSpec.OtherContents` | kernel/fs.c:505-539 | Every other file is as it was |
| `FileSpec.TruncatedKeepsOthers` | kernel/fs.c:425-453 | itrunc leaves the contents of other files alone |
| `FileSpec.FilledMore` | kernel/fs.c:382-421 | Filling a block that begins at or below the end keeps the file without a hole |
| `FileSpec.UnalignedIsThere` | kernel/fs.c:505-539 | The block of an unaligned offset at most the size is allocated already |
| `FileSpec.WritingNext` | kernel/fs.c:516-528 | One turn of writei carries what is written so far over to the next piece |
| `FileSpec.WritingGrown` | kernel/fs.c:516-528 | Blocks allocated for a piece whose copy then failed change nothing that is read |
| `FileSpec.StepCost` | kernel/file.c:148-172 | One write step dirties at most two blocks besides the indirect block and its bitmap block |
| `FileSpec.CostNext` | kernel/file.c:148-172 | The bound adds up over the pieces of a write, an unaligned first piece costing one block less |
| `FileSpec.ChunkFits` | kernel/file.c:148-172 | A chunk of filewrite dirties at most MAXOPBLOCKS blocks, for every offset |
| `FileSystem.FileSystem.Balloc` | kernel/fs.c:65-88 | The lowest free block, marked and zeroed; 0 exactly when every block is in use |
| `FileSystem.FileSystem.Bzero` | kernel/fs.c:50-59 | One block becomes zeroes |
| `FileSystem.FileSystem.Bfree` | kernel/fs.c:91-105 | Panics exactly on a free block; otherwise clears exactly the block's bit |
| `FileSystem.FileSystem.Iupdate` | kernel/fs.c:225-241 | Size and addresses of the inode on disk become those in memory |
| `FileSystem.FileSystem.FillSlot` | kernel/fs.c:388-406 | A fresh block in an empty direct or indirect slot, or no change when the disk is full |
| `FileSystem.FileSystem.FillEntry` | kernel/fs.c:407-417 | The same for an entry of the indirect block |
| `FileSystem.FileSystem.Bmap` | kernel/fs.c:382-421 | The block of the bn-th file block, allocated if missing; 0 only on a full disk; keeps ownership and all file bytes, also on the out-of-space paths |
| `FileSystem.FileSystem.FreeBlock` | kernel/fs.c:432-437 | Frees a slot's block if it names one, never panicking, which advances the truncation |
| `FileSystem.FileSystem.FreeEntry` | kernel/fs.c:442-445 | The same for an entry of the indirect block |
| `FileSystem.FileSystem.FreeEntries` | kernel/fs.c:439-446 | All entries |
| `FileSystem.FileSystem.FreeDirect` | kernel/fs.c:432-437 | All direct blocks |
| `FileSystem.FileSystem.FreeIndirect` | kernel/fs.c:439-449 | The indirect block and all blocks named in it |
| `FileSystem.FileSystem.Itrunc` | kernel/fs.c:425-453 | Size 0, no blocks, exactly that inode's blocks freed and none that was free, other inodes unchanged; only bitmap blocks and the inode's block are log_written |
| `FileSystem.FileSystem.ReadPiece` | kernel/fs.c:482-494 | One turn of readi: the bytes of the file there, with nothing allocated |
| `FileSystem.FileSystem.ReadPieces` | kernel/fs.c:482-494 | readi's loop across direct and indirect blocks |
| `FileSystem.FileSystem.Readi` | kernel/fs.c:471-496 | Exactly the requested slice clipped to the size; -1 when the copy fails; 32-bit overflow of off + n gives 0 |
| `FileSystem.FileSystem.StorePiece` | kernel/fs.c:520-527 | Bytes into one block are those bytes of the file |
| `FileSystem.FileSystem.WritePiece` | kernel/fs.c:516-528 | One turn of writei: what it stores, what it log_writes, and why it stops |
| `FileSystem.FileSystem.WriteTurn` | kernel/fs.c:516-528 | The same with what is written and the blocks dirtied so far |
| `FileSystem.FileSystem.WritePieces` | kernel/fs.c:516-528 | writei's loop: the bytes written, why fewer than asked, and the bound on dirtied blocks |
| `FileSystem.FileSystem.Writei` | kernel/fs.c:505-539 | -1 exactly beyond the size or the maximum; otherwise replaces exactly [off, off + r), sets size to max(size, off + r), leaves no hole and no other file changed; bounds the blocks log_written |
| `FileSystem.FileSystem.WriteMore` | kernel/file.c:159-163 | One writei of filewrite continues what is in the file already |
| `FileSystem.FileSystem.WriteChunk` | kernel/file.c:148-172 | One operation of filewrite dirties at most MAXOPBLOCKS blocks |
| `FileSystem.FileSystem.Filewrite` | kernel/file.c:148-172 | The file holds the first bytes of the source from the old offset on, the offset advances by as many, the result is n or -1, and every operation fits its share of the log |
| `FileOps.WriteEntry` | kernel/fs.c:579-606 | A directory entry written or zeroed log_writes its data block, the indirect block, the inode's block and bitmap blocks at most |
| `FileOps.Put` | kernel/fs.c:336-362 | An iput log_writes the inode's block and bitmap blocks at most, and leaves other inodes as they are |
| `FileOps.FirstEntries` | kernel/sysfile.c:276-280 | "." and ".." of a new directory take one data block together |
| `FileOps.Close` | kernel/file.c:59-80 | A call that only gives up an inode log_writes one block besides the bitmap |
| `FileOps.Unlink` | kernel/sysfile.c:188-243 | Every path of unlink log_writes at most four blocks besides the bitmap |
| `FileOps.Link` | kernel/sysfile.c:123-170 | Every path of link, the failing ones included, at most four |
| `FileOps.Create` | kernel/sysfile.c:245-302 | Every path of create, the failing ones included, at most five |
| `FileOps.BitmapCount` | mkfs/mkfs.c:23 | A disk has one bitmap block for every 8192 blocks |
| `FileOps.CallFits` | kernel/param.h:9-12 | So each of these calls log_writes at most MAXOPBLOCKS blocks on every disk of up to five bitmap blocks; mkfs makes one of one |
| `DirSpec.Namecmp` | kernel/fs.c:543-547 | 0 exactly when the entry's field is that of the name, so names compare modulo DIRSIZ |
| `DirSpec.FieldClean` | kernel/fs.c:600 | A name as strncpy writes it has only NUL after its first NUL |
| `DirSpec.FindUnique` | kernel/fs.c:551-575 | With different names, the entry found for a name is the only one |
| `DirSpec.PutOk` | kernel/fs.c:579-606 | Adding a name that is not there keeps names different |
| `DirSpec.PutLookup` | kernel/fs.c:579-606 | dirlookup after dirlink: the new name is bound and every other name is as before |
| `DirSpec.RemoveLookup` | kernel/sysfile.c:222-224 | dirlookup after unlink: the name is gone and every other name is as before |
| `LinkSpec.CountPut` | kernel/fs.c:579-606 | How setting one entry changes the number of entries that name an inode |
| `LinkSpec.EntryCounts` | kernel/fs.c:579-606 | A new entry in a linked directory adds one link for the inode it names, and none in an unlinked one |
| `LinkSpec.ClearedCounts` | kernel/sysfile.c:222-224 | Clearing an entry takes one link off |
| `LinkOps.AddedDirOk` | kernel/fs.c:579-606 | A new name never replaces "." or ".." and is neither of them |
| `LinkOps.CreatedRefs` | kernel/sysfile.c:270-289 | Exactly how a creation changes the number of entries naming each inode, for linked and unlinked parents |
| `LinkOps.BareCounts` | kernel/sysfile.c:173-186 | A directory with nothing but "." and ".." gives one link, to its parent |
| `LinkOps.CreateCountsExactly` | kernel/sysfile.c:245-302 | After a creation nlink counts the entries for every inode if and only if the parent has a link and, for a new directory, its 16-bit count has room for one more |
| `LinkOps.CreatedInv` | kernel/sysfile.c:245-302 | In a linked parent creation keeps counts, names and the tree |
| `LinkOps.BegunInv` | kernel/sysfile.c:145-147 | Counting a link before it is made, or taking it back, keeps the invariant with one link pending |
| `LinkOps.LinkCountsExactly` | kernel/sysfile.c:149-156 | After link's entry is made for a link that is counted already, nlink counts the entries if and only if the directory has a link |
| `LinkOps.BeginCountsExactly` | kernel/sysfile.c:145-147 | Counting a link keeps the counts if and only if the 16-bit nlink is below 32767 |
| `LinkOps.WholeLinkExactly` | kernel/sysfile.c:123-170 | link as a whole keeps the counts if and only if the directory has a link and nlink is below 32767 |
| `LinkOps.LinkInv` | kernel/sysfile.c:149-156 | In a linked directory link keeps counts, names and the tree |
| `LinkOps.NamedOnce` | kernel/sysfile.c:217-220 | An empty directory has exactly one link, is not the root, and its ".." is the directory that lists it |
| `LinkOps.ParentHasTwo` | kernel/sysfile.c:225-228 | The parent of a directory has at least two links, so it stays linked |
| `LinkOps.HasLink` | kernel/sysfile.c:215-216 | The inode that unlink finds has a link, so its panic cannot happen |
| `LinkOps.UnlinkedRefs` | kernel/sysfile.c:222-233 | Exactly how unlink changes the number of entries naming each inode |
| `LinkOps.UnlinkedInv` | kernel/sysfile.c:188-243 | unlink keeps counts, names and the tree |
| `LinkOps.UnlinkedLookup` | kernel/sysfile.c:222-224 | After unlink the name is gone and no other name is |
| `LinkOps.FreedInv` | kernel/fs.c:336-362 | Freeing an inode without links keeps counts, names and the tree |
| `LinkOps.LeadsToRoot` | kernel/sysfile.c:276-289 | From every linked directory ".." leads to the root |
| `LinkOps.TargetInUse` | kernel/fs.c:551-575 | An entry of a linked directory names an inode in use with a link; a directory that has been removed has no entries but "." and ".." |
| `LinkOps.AbandonedInv` | kernel/sysfile.c:296-302 | A creation given up while another thread has a reference leaves an inode without links, and counts, names and the tree hold |
| `Links.NewTreeInv` | mkfs/mkfs.c:117-129 | The file system mkfs makes satisfies the invariant |
| `Links.CreateInRemoved` | kernel/sysfile.c:245-302 | A concrete run: mkdir, rmdir while the directory is held, create in it; the counts are then wrong |
| `Links.DotDotGone` | kernel/sysfile.c:188-243 | A concrete run: a/b is made, b is removed while it is held, then a; ".." of b names a free inode |
| `LinkOverflow.ManyNames` | kernel/sysfile.c:123-170 | A file can have any number of names up to 32767, in two directories |
| `LinkOverflow.LinkOverflows` | kernel/sysfile.c:145-147 | With 32767 names, one more link in a linked directory makes nlink negative and the counts wrong |
| `Links.Tree.constructor` | mkfs/mkfs.c:117-129 | A root directory that is its own parent and free inodes |
| `Links.Tree.Dirlookup` | kernel/fs.c:551-575 | The loop finds the entry with that name, or none |
| `Links.Tree.Dirlink` | kernel/fs.c:579-606 | A finite-map update in the first free entry or at the end; fails without change exactly when the name is there or there is no room |
| `Links.Tree.Isdirempty` | kernel/sysfile.c:173-186 | True exactly when no entry after the first two is in use |
| `Links.Tree.Ialloc` | kernel/fs.c:198-219 | The lowest free inode number, or the end |
| `Links.Tree.Create` | kernel/sysfile.c:245-302 | Result and new state on every path; a failed creation changes nothing, or leaves an inode without links when another thread still has a reference to it; the counts hold afterwards if and only if nothing is made, or the parent is linked and can count a new directory |
| `Links.Tree.Make` | kernel/sysfile.c:265-302 | The new inode with its entries and name, or everything undone, or an abandoned inode without links |
| `Links.Tree.MakeNew` | kernel/sysfile.c:263-302 | The same with the counts |
| `Links.Tree.FirstNames` | kernel/sysfile.c:276-280 | "." and ".." of a new directory; adding ".." never fails after "." |
| `Links.Tree.LinkBegin` | kernel/sysfile.c:123-147 | Refuses a directory; otherwise counts the link, which is pending; the counts hold if and only if nlink does not overflow its 16 bits |
| `Links.Tree.LinkEnd` | kernel/sysfile.c:149-170 | Makes the entry or takes the count back; the counts hold if and only if the directory is linked or no entry was made |
| `Links.Tree.LinkAbort` | kernel/sysfile.c:149-170 | Without a directory for the new name the count is taken back, and everything holds |
| `Links.Tree.Unlink` | kernel/sysfile.c:188-243 | Removes the name exactly unless it is ".", "..", missing, or a directory with entries; keeps counts and tree |
| `Links.Tree.Remove` | kernel/sysfile.c:222-233 | Clears the entry, takes off the inode's link and for a directory the parent's |
| `Links.Tree.Release` | kernel/fs.c:336-362 | The last reference frees an inode exactly when it has no links |
| `InodeTable.SlotFor` | kernel/fs.c:246-277 | The live entry with that key if there is one, otherwise an unused entry while no live one has the key |
| `InodeTable.FindSlot` | kernel/fs.c:246-277 | iget's single pass finds that entry |
| `InodeSafety.OwnerKeepsInode` | kernel/fs.c:336-362 | In a state with the invariant, while an idle thread holds a reference, the inode stays allocated on disk and is nobody's new inode |
| `InodeSafety.FreerShares` | kernel/fs.c:346-358 | A thread that frees an entry somebody else refers to has already freed the inode on disk |
| `InodeSafety.IputNeverBlocks` | kernel/fs.c:341-346 | With one reference and no links the sleep-lock is free when iput takes it |
| `InodeSafety.OnlyFreer` | kernel/fs.c:346-352 | In a state with the invariant, until the inode is free on disk, the freeing thread has the only reference and the lock |
| `InodeSafety.KeepsAcquire` | kernel/fs.c:292-300 | Taking an inode's sleep-lock keeps the invariant |
| `InodeSafety.KeepsLoad` | kernel/fs.c:301-316 | Loading the copy keeps it |
| `InodeSafety.KeepsChange` | kernel/fs.c:222-241 | Changing the locked copy keeps it |
| `InodeSafety.KeepsIupdate` | kernel/fs.c:225-241 | Writing the copy to disk keeps it |
| `InodeSafety.KeepsRelease` | kernel/fs.c:320-327 | Unlocking a written-back copy keeps it |
| `InodeSafety.KeepsIdup` | kernel/fs.c:281-288 | Another reference keeps it |
| `InodeSafety.KeepsIputDrop` | kernel/fs.c:336-362 | Dropping a reference keeps it |
| `InodeSafety.KeepsIputFree` | kernel/fs.c:336-346 | Starting to free an inode keeps it |
| `InodeSafety.KeepsTruncate` | kernel/fs.c:350 | Truncating keeps it |
| `InodeSafety.KeepsClearType` | kernel/fs.c:351 | Clearing the type in memory keeps it |
| `InodeSafety.KeepsWriteBack` | kernel/fs.c:352 | Writing the free inode to disk keeps it |
| `InodeSafety.KeepsInvalidate` | kernel/fs.c:353-355 | Invalidating the copy and unlocking keep it, also when the number is reused meanwhile |
| `InodeSafety.KeepsDrop` | kernel/fs.c:357-361 | Dropping the freeing thread's reference keeps it |
| `InodeSafety.KeepsIalloc` | kernel/fs.c:198-219 | Reusing an inode number keeps it, also while iput is finishing |
| `InodeSafety.KeepsIget` | kernel/fs.c:246-277 | A new reference to a usable inode, one that is in use and that no other thread is freeing or has just allocated, keeps it |
| `InodeSafety.IgetExactly` | kernel/fs.c:246-277 | iget keeps the invariant if and only if the inode is usable |
| `InodeSafety.NamedIsUsable` | kernel/fs.c:551-575 | An inode with a link in memory and on disk is usable |
| `InodeSafety.OwnIsUsable` | kernel/fs.c:551-575 | So is the one the thread has a reference to, as for "." |
| `InodeSafety.StepKeeps` | kernel/fs.c:198-362 | Every step of any thread keeps the invariant, an iget if its inode is usable |
| `InodeSafety.ReachableInv` | kernel/fs.c:181-362 | So it holds after every run from start-up whose igets are of usable inodes |
| `InodeSafety.RunSafeExactly` | kernel/fs.c:181-362 | A run has the invariant throughout if and only if every iget in it is of a usable inode |
| `InodeSafety.FreedOnlyUnused` | kernel/fs.c:336-362 | In every run whose igets are of usable inodes an inode becomes free on disk only by iput, with zero links and one reference, the lock held by that thread |
| `InodeSafety.LockedCopyIsCurrent` | kernel/fs.c:292-317 | In every such run ilock returns with the copy equal to the inode on disk and in use, so "no type" cannot happen |
| `InodeLookup.LookupUsable` | kernel/fs.c:551-575 | What a lookup finds is usable if the directory is linked or the entry is "."; the other case is ".." of a removed directory, which is usable if and only if the parent is in use and no other thread is freeing or has just allocated it |
| `InodeBasics.AnyRun` | kernel/fs.c:181-362 | In every run, whatever iget is called for, reference counts and locks are consistent and live entries differ |
| `InodeBasics.OneEntryPerInode` | kernel/fs.c:246-277 | In every run an inode has at most one live entry |
| `InodeBasics.LockIsFree` | kernel/fs.c:341-346 | An entry with one reference and no links is unlocked, and the only owner is the one that puts it |
| `InodeBasics.IputTakesFreeLock` | kernel/fs.c:341-346 | In every run iput takes the sleep-lock without waiting, as the only owner |
| `InodeGone.FreesIt` | kernel/fs.c:346-358 | A thread early in freeing an inode frees it on disk by its own steps, whoever else has got a reference meanwhile |
| `InodeGone.UnusableIsLost` | kernel/fs.c:246-277 | After iget of an inode that is not usable the thread's inode is free on disk or newly allocated to another, at once or when the freeing thread goes on |
| `InodeGone.UsableIsKept` | kernel/fs.c:246-277 | After iget of a usable one it never is, in any continuation whose igets are of usable inodes |
| `InodeGone.NoTypeRun` | kernel/fs.c:292-316 | A concrete run that ends with ilock finding no type |
| `InodeGone.FreedTwiceHeld` | kernel/fs.c:336-362 | A concrete run in which an inode is freed on disk with two references |
| `InodeOrphans.OrphanExactly` | kernel/fs.c:336-362 | The last reference leaves an inode without links allocated exactly if the disk inode has none and the reference was not put by iput on a loaded entry |
| `InodeOrphans.OrphanRun` | kernel/fs.c:336-362 | A concrete run of two threads that leaves such an inode: its new owner gives it up before the old freeing thread drops its reference |
| `VmSpec.PxInjective` | kernel/riscv.h:365-380 | The three 9-bit indices determine the page |
| `VmSpec.PxOnto` | kernel/riscv.h:365-380 | Every choice of indices is some page below the top |
| `VmSpec.WithVKeeps` | kernel/riscv.h:365-380 | An entry built for a page has exactly the rights asked for, and the valid bit changes none |
| `VmSpec.PathOwned` | kernel/vm.c:87-105 | The tables on the way to any page belong to the tree |
| `VmSpec.UnusedFrame` | kernel/kalloc.c:99-117 | Changing a page that is no table changes no translation |
| `VmSpec.SetLeafAt` | kernel/vm.c:146-174 | A level-0 entry changes its own translation, no other in this tree or another |
| `VmSpec.LinkedAt` | kernel/vm.c:87-105 | A new table adds no translation and changes none |
| `VmSpec.LinkedOwned` | kernel/vm.c:87-105 | Linking a fresh zeroed table keeps page ownership |
| `VmSpec.MappedOwned` | kernel/vm.c:146-174 | Mapping keeps page ownership |
| `VmSpec.UnmappedOwned` | kernel/vm.c:180-199 | Unmapping keeps page ownership |
| `VmSpec.RetypedOwned` | kernel/kalloc.c:99-117 | Filling a page that no tree has keeps page ownership |
| `VmSpec.TakenOk` | kernel/kalloc.c:99-117 | Taking the first free page keeps: free pages have count 0 and no use, used pages count 1 |
| `VmSpec.GivenBackOk` | kernel/kalloc.c:71-94 | Giving a page back keeps the same |
| `VmSpec.UserPage` | kernel/vm.c:110-128 | A mapped user page is a data page owned by its place in the tree |
| `VmSpec.StoreChanges` | kernel/vm.c:342-375 | Writing to a user page shows in that page of that tree only |
| `VmSpec.LeafSetChanges` | kernel/vm.c:146-174 | Mapping or unmapping a page is a change of that page alone |
| `VmSpec.ChangedTwice` | kernel/vm.c:217-240 | Changes of adjoining ranges compose |
| `VmSpec.ChangedBack` | kernel/vm.c:217-240 | Unmapping what was mapped undoes the change, which the failure paths rest on |
| `VmSpec.FreshPagesNext` | kernel/vm.c:217-240 | One turn of uvmalloc extends the range of fresh zeroed pages |
| `VmSpec.CopiedNext` | kernel/vm.c:297-324 | One turn of uvmcopy extends the range of copied pages |
| `VmSpec.PagesDisjoint` | kernel/vm.c:297-324 | Two places, in one tree or two, never share a page |
| `VmSpec.FreedPageOwned` | kernel/vm.c:180-199 | Clearing an entry and freeing its page keeps ownership |
| `Memory.Memory.constructor` | kernel/kalloc.c:42-54 | After kinit every page is free and none is used |
| `Memory.Memory.Freerange` | kernel/kalloc.c:57-64 | Frees every page of the range |
| `Memory.Memory.Kalloc` | kernel/kalloc.c:99-117 | The first free page, filled with junk and counted once; 0 exactly when none is free |
| `Memory.Memory.Kfree` | kernel/kalloc.c:71-94 | The page is junk, unused and at the front of the free list |
| `Memory.Memory.Step` | kernel/vm.c:93-103 | One level of walk: the next table, made if asked for; no translation changes |
| `Memory.Memory.LinkFresh` | kernel/vm.c:98-101 | A fresh page becomes an empty table in its slot |
| `Memory.Memory.Walk` | kernel/vm.c:87-105 | The level-0 table of a page, or 0 exactly when a table is missing (and, when allocating, memory has run out); no translation changes |
| `Memory.Memory.Mappages` | kernel/vm.c:146-174 | The page is mapped there and no other translation of any tree changes; on failure none does |
| `Memory.Memory.UnmapPage` | kernel/vm.c:188-198 | One turn of uvmunmap |
| `Memory.Memory.FreeLeaf` | kernel/vm.c:193-197 | A mapped page is freed and its entry cleared |
| `Memory.Memory.Uvmunmap` | kernel/vm.c:180-199 | The range is unmapped, its pages freed, nothing else changes |
| `Memory.Memory.Uvmdealloc` | kernel/vm.c:247-258 | The size returned and exactly the pages between unmapped |
| `Memory.Memory.MapFresh` | kernel/vm.c:227-237 | A fresh page with given bytes is mapped, or nothing changes |
| `Memory.Memory.GrowTurn` | kernel/vm.c:226-238 | One turn of uvmalloc, or everything from the old size on unmapped again |
| `Memory.Memory.Uvmalloc` | kernel/vm.c:217-240 | Zeroed pages with the asked permission over the range; if memory runs out all user mappings are as before |
| `Memory.Memory.Lookup` | kernel/vm.c:87-105 | walk without allocation reads the translation and changes nothing |
| `Memory.Memory.CopyPage` | kernel/vm.c:309-317 | One page copied with its flags to a fresh page, or nothing changed |
| `Memory.Memory.CopyTurn` | kernel/vm.c:304-323 | One turn of uvmcopy |
| `Memory.Memory.Uvmcopy` | kernel/vm.c:297-324 | The child's pages below sz equal the parent's in contents and flags; the parent is unchanged; on failure the child maps nothing |
| `UserMemory.FlatWroteNext` | kernel/vm.c:342-375 | Two adjoining writes to flat memory are one |
| `UserMemory.FlatSame` | kernel/vm.c:452-474 | A mapping change that leaves every page reading the same is no change of flat memory |
| `UserMemory.StoreFlat` | kernel/vm.c:342-375 | A store in one mapped page is a write of flat memory |
| `UserMemory.ReadPage` | kernel/vm.c:380-403 | A stretch of flat memory within one mapped page is the stretch of that page |
| `UserMemory.Walkaddr` | kernel/vm.c:110-128 | The user page, or 0 exactly when there is none |
| `UserMemory.Ismapped` | kernel/vm.c:476-487 | Whether the page is mapped |
| `UserMemory.Vmfault` | kernel/vm.c:452-474 | A zeroed page is mapped below sz, or 0 for a stated reason; flat memory reads the same either way |
| `UserMemory.FaultIn` | kernel/vm.c:465-473 | The same for a page known to be below sz |
| `UserMemory.PageFor` | kernel/vm.c:386-392 | The page behind an address, faulted in if need be |
| `UserMemory.CopyinPage` | kernel/vm.c:385-401 | One turn of copyin |
| `UserMemory.CopyinTurn` | kernel/vm.c:385-401 | The same on top of what has been read |
| `UserMemory.Copyin` | kernel/vm.c:380-403 | The bytes read are those of flat memory, all of them exactly on success; flat memory is unchanged; a failure has its reason |
| `UserMemory.StorePage` | kernel/vm.c:365-368 | Bytes stored in one page are a write of flat memory |
| `UserMemory.CopyoutPage` | kernel/vm.c:348-373 | One turn of copyout |
| `UserMemory.CopyoutTurn` | kernel/vm.c:348-373 | The same on top of what has been written |
| `UserMemory.Copyout` | kernel/vm.c:342-375 | Flat memory has exactly the given bytes replaced on success, and the first t of them on failure, which has its reason |
| `UserMemory.ReadAfterWrite` | kernel/vm.c:342-403 | Reading flat memory after writing it gives back what was written |
| `UserMemory.TopStaysHidden` | kernel/vm.c:110-128 | User operations leave the trampoline and trapframe unreachable for user code |
| `Teardown.ChildIs` | kernel/vm.c:263-278 | In a tree that maps nothing a valid entry is a pointer to a table the tree owns, so freewalk meets no leaf |
| `Teardown.FreeEntry` | kernel/vm.c:266-276 | One turn of freewalk releases the child table and everything below |
| `Teardown.Freewalk` | kernel/vm.c:263-278 | Exactly the table pages of the subtree are freed and no page still in use changes |
| `Teardown.TreeGone` | kernel/vm.c:263-278 | The pages in use afterwards are well owned and other trees translate as before |
| `Teardown.UnmappedThenGone` | kernel/vm.c:283-288 | Unmapping the user pages and freeing the tables takes the whole tree away |
| `Teardown.Uvmfree` | kernel/vm.c:283-288 | Every page of a tree whose leaves lie below sz is back on the free list; other trees are unchanged |
| `Teardown.Uvmcreate` | kernel/vm.c:203-212 | A new tree that maps nothing, or 0 exactly without memory |
| `Teardown.NewTree` | kernel/vm.c:203-212 | Creating a tree is the inverse of removing one |
| `Semaphores.WakeupNotLost` | kernel/proc.c:568-581 | A process that wakeup has passed is no longer asleep on the channel |
| `Semaphores.SleepNotLost` | kernel/proc.c:536-563 | A thread commits to sleeping only while the count is zero, with the lock handed over inside sleep |
| `Semaphores.CountNotLost` | kernel/sem.c:40-72 | Raising the count starts a wakeup; lowering it or releasing the lock loses none |
| `Semaphores.ThreadKeeps` | kernel/sem.c:19-72 | Each step of a thread in sem_init, sem_down, sem_up, sleep, wakeup, kill and yield keeps the invariant |
| `Semaphores.SchedKeeps` | kernel/proc.c:418-484 | Each step of a scheduler keeps it, lock hand-off across swtch included |
| `Semaphores.InitInv` | kernel/sem.c:9-17 | The start state satisfies it |
| `Semaphores.NoLostWakeup` | kernel/sem.c:19-72 | In every run, when a semaphore's lock is free and its count positive, nobody is asleep on it or committed to sleeping |
| `Semaphores.CountConserved` | kernel/sem.c:19-72 | In every run the 32-bit count is not negative and is the initial value plus ups minus downs if and only if no `sem_up` found it at 2^31 - 1 |
| `Semaphores.StepConserves` | kernel/sem.c:19-72 | One step keeps the count conserved if and only if it is not a `sem_up` that finds 2^31 - 1 |
| `Semaphores.OverflowRun` | kernel/sem.c:19-72 | A concrete run: `sem_init` with 2^31 - 1 and `sem_up` leave -2^31 |
| `Semaphores.RunningIsCurrent` | kernel/proc.c:418-484 | The same as `Processors.RunningIsCurrent` in the machine with semaphores |
| `Semaphores.CurrentUnique` | kernel/proc.c:418-484 | For every state that satisfies the invariant |
| `ExitWait.ThreadKeeps` | kernel/proc.c:253-409 | Each step of a thread in fork, exit, reparent, wait, sleep, wakeup, kill and yield keeps the invariant |
| `ExitWait.DispatchKeeps` | kernel/proc.c:435-451 | Running a process keeps it |
| `ExitWait.LockKeeps` | kernel/proc.c:435-451 | The scheduler's taking and giving back of a process lock keeps it |
| `ExitWait.InitInv` | kernel/proc.c:219-232 | The state with only the first process satisfies it |
| `ExitWait.ParentsLive` | kernel/proc.c:253-360 | In every run no process has an unused or zombie parent, and every process but the first has one |
| `ExitWait.NoZombieMissed` | kernel/proc.c:320-409 | In every run, when wait_lock is free nobody sleeps in wait, or is committed to, with a zombie child |
| `ExitWait.ReapedOnce` | kernel/proc.c:364-409 | In every run a slot has been reaped as often as it has exited, less one while it is a zombie |
| `ExitWait.ReapsTheGone` | kernel/proc.c:376-398 | In every run a reaper finds its zombie switched out for good |
| `Processors.ThreadOutside` | kernel/proc.c:253-409 | A step of a thread puts no other process on or off a CPU, and gives a process lock to the scheduler only when it switches out itself |
| `Processors.GoKeeps` | kernel/proc.c:253-498 | Each step of the process that a CPU runs, switching back to its scheduler included, keeps the invariant of processes and CPUs |
| `Processors.ScheduleKeeps` | kernel/proc.c:418-451 | Each step of a scheduler keeps it |
| `Processors.BootInv` | kernel/proc.c:219-232 | The start state satisfies it |
| `Processors.CurrentUnique` | kernel/proc.c:418-484 | In every state with it, a process whose lock is free is RUNNING exactly when some CPU has it as current, and then one CPU only |
| `Processors.RunningIsCurrent` | kernel/proc.c:253-498 | The same after every run of fork, exit, wait, sleep, wakeup, kill and yield on any number of CPUs |
| `Processors.ReapedAt` | kernel/proc.c:376-398 | In every state with the invariant no CPU has a zombie as current that wait is about to free |
| `Processors.ReapedIsNoOnes` | kernel/proc.c:320-409 | So in every run: exit's last switch has left its stack before freeproc |
| `Processors.MoveIsStep` | kernel/proc.c:418-484 | A move of the machine with CPUs is a step of the processes alone or none, so what holds in every run without CPUs holds with them |
| `HeapSpec.InsertedOk` | user/umalloc.c:24-44 | Putting a block back and joining it with its neighbours keeps the list in address order, disjoint and never adjacent |
| `HeapSpec.InsertedAt` | user/umalloc.c:33-42 | Each block of the new list is an old one or the one that holds the freed block |
| `HeapSpec.InsertedUnits` | user/umalloc.c:33-42 | It adds exactly the freed units |
| `HeapSpec.InsertedApart` | user/umalloc.c:33-42 | What was apart from the list and the block is apart from the new list |
| `HeapSpec.TakenOk` | user/umalloc.c:75-85 | Cutting a block from the end of a free one, or taking all of it, keeps the list in order |
| `HeapSpec.TakenUnits` | user/umalloc.c:75-85 | It takes exactly those units |
| `HeapSpec.TakenIsApart` | user/umalloc.c:75-85 | What is taken is apart from what is left |
| `HeapSpec.TakenApart` | user/umalloc.c:75-85 | What was apart from the list is apart from both |
| `HeapRing.NotYet` | user/umalloc.c:30-32 | The two tests of free's search hold at the right place of the ring and nowhere else |
| `HeapRing.StepNearer` | user/umalloc.c:30-32 | A step round the ring comes nearer to the starting point, so the search ends |
| `HeapRing.UpIsNext` | user/umalloc.c:33-37 | The test for an upper neighbour is right, also at the end of the ring |
| `HeapRing.RelinkRing` | user/umalloc.c:33-42 | The pointer and size updates turn the ring of the list into that of the list with the block put in |
| `HeapRing.RingTaken` | user/umalloc.c:75-83 | malloc's updates turn it into the ring of what is left |
| `HeapRing.HoldsBlock` | user/umalloc.c:46-61 | Some block of the new list is at least as large as the block put in, so one morecore is enough |
| `HeapRing.FreedState` | user/umalloc.c:24-44 | Everything asked of the heap holds after free |
| `HeapRing.TakenState` | user/umalloc.c:63-90 | Everything asked of the heap holds after malloc |
| `HeapRing.CoreState` | user/umalloc.c:46-61 | Memory from sbrk is a block apart from everything |
| `Umalloc.SbrkArgument` | user/umalloc.c:46-61 | The int argument of sbrk is the size needed if and only if the units are at most MAXUNITS; beyond that it is smaller, and sbrk grants it exactly if what it takes away is not 2^31 bytes and the process has that much |
| `Umalloc.UnitsFor` | user/umalloc.c:69 | Enough units for the bytes and the header, for every 32-bit size |
| `Umalloc.Heap.constructor` | user/umalloc.c:21-22 | An empty heap |
| `Umalloc.Heap.Sbrk` | kernel/sysproc.c:44-61 | Growing always succeeds; shrinking exactly if there is that much and the argument can be negated; the break moves by the argument |
| `Umalloc.Heap.FindPlace` | user/umalloc.c:30-32 | Terminates at the block after which the freed block belongs |
| `Umalloc.Heap.Relink` | user/umalloc.c:33-42 | The updates of free, on the headers |
| `Umalloc.Heap.Free` | user/umalloc.c:24-44 | The list becomes the list with the block put in; units are conserved; other blocks stay handed out |
| `Umalloc.Heap.Morecore` | user/umalloc.c:46-61 | At least the units asked for join the list in one block, or nothing changes, exactly when sbrk refuses; the heap is all below the break afterwards if and only if the request was at most MAXUNITS or sbrk refused |
| `Umalloc.Heap.AddCore` | user/umalloc.c:57-60 | A block of new units joins the list |
| `Umalloc.Heap.Take` | user/umalloc.c:75-84 | The block handed out and the list left |
| `Umalloc.Heap.Cut` | user/umalloc.c:76-82 | The header updates of malloc |
| `Umalloc.Heap.Search` | user/umalloc.c:74-86 | The first block in ring order that is large enough, or none |
| `Umalloc.Heap.Malloc` | user/umalloc.c:63-90 | A block of at least the size, disjoint from all others and from the free list, or 0 exactly when no free block suffices and sbrk refuses; units are conserved; all blocks are below the break afterwards if and only if a free block sufficed, the request was at most MAXUNITS, or sbrk refused |
| `Umalloc.HugeRequest` | user/umalloc.c:46-61 | A concrete run: malloc(2^32 - 1) in a new process hands out a block of 2^28 + 1 units, of which the process has one |
| `VirtioDisk.SlotOfIndex` | kernel/virtio_disk.c:272-277 | A 16-bit index selects the slot of the full count, across its overflow |
| `VirtioDisk.IndexEqual` | kernel/virtio_disk.c:312-314 | Two 16-bit indices are equal exactly when the counts are, for counts at most eight apart |
| `VirtioDisk.ChainAdded` | kernel/virtio_disk.c:226-265 | Three free descriptors formatted as a chain: every descriptor is still free or in exactly one chain |
| `VirtioDisk.ChainFreed` | kernel/virtio_disk.c:185-197 | The same when a chain is undone |
| `VirtioDisk.FreeCount` | kernel/virtio_disk.c:201-213 | Descriptors are conserved: the free ones are eight less three for each request |
| `VirtioDisk.RingPush` | kernel/virtio_disk.c:272 | A new ring entry overwrites none that is not consumed |
| `VirtioDisk.RingPop` | kernel/virtio_disk.c:312-324 | The consumer reads the oldest entry |
| `VirtioDisk.QueuePush` | kernel/virtio_disk.c:272-277 | A ring with its 16-bit index stays a queue when an entry is added: there is room |
| `VirtioDisk.QueuePop` | kernel/virtio_disk.c:312-324 | And when one is taken |
| `VirtioDisk.SubmitStep` | kernel/virtio_disk.c:216-277 | Offering a request keeps the whole invariant |
| `VirtioDisk.TakeStep` | kernel/virtio_disk.c:272-281 | So does the device taking one |
| `VirtioDisk.CompleteStep` | kernel/virtio_disk.c:309-312 | And completing one |
| `VirtioDisk.AckStep` | kernel/virtio_disk.c:312-324 | And a turn of the interrupt handler, which finds a completed request with its buffer |
| `VirtioDisk.FinishStep` | kernel/virtio_disk.c:283-292 | And the requester freeing its chain |
| `VirtioDisk.Disk.constructor` | kernel/virtio_disk.c:145-146 | All descriptors free and both rings empty |
| `VirtioDisk.Disk.AllocDesc` | kernel/virtio_disk.c:156-166 | The lowest free descriptor, or -1 exactly when none is free |
| `VirtioDisk.Disk.FreeDesc` | kernel/virtio_disk.c:169-182 | Panics exactly on a number out of range or a free descriptor; otherwise the descriptor is cleared and free |
| `VirtioDisk.Disk.FreeChain` | kernel/virtio_disk.c:185-197 | Following the chain frees exactly its three descriptors and ends |
| `VirtioDisk.Disk.Alloc3Desc` | kernel/virtio_disk.c:201-213 | Three different descriptors, or none taken, exactly when fewer than three are free |
| `VirtioDisk.Disk.GiveBack` | kernel/virtio_disk.c:206-209 | Those taken so far are free again |
| `VirtioDisk.Disk.Prepare` | kernel/virtio_disk.c:226-265 | Three descriptors taken and formatted for the request, exactly when fewer than two requests are at the disk |
| `VirtioDisk.Disk.Format` | kernel/virtio_disk.c:247-265 | Header, data and status descriptor with addresses, lengths, direction and links |
| `VirtioDisk.Disk.Offer` | kernel/virtio_disk.c:238-277 | The buffer is recorded and the chain offered |
| `VirtioDisk.Disk.Submit` | kernel/virtio_disk.c:216-281 | The request of the buffer, its sector and direction, is offered and the buffer marked, exactly when fewer than two requests are at the disk; otherwise nothing changes |
| `VirtioDisk.Disk.DeviceTake` | kernel/virtio_disk.c:272-281 | The device takes the oldest offered request and reads exactly what its requester asked for |
| `VirtioDisk.Disk.ReadChain` | kernel/virtio_disk.c:238-265 | Following the chain in memory gives type, sector, buffer, direction and status of that request |
| `VirtioDisk.Disk.DeviceComplete` | kernel/virtio_disk.c:309-312 | The device completes a request it has taken, once |
| `VirtioDisk.Disk.Interrupt` | kernel/virtio_disk.c:295-327 | One turn of the handler unmarks exactly the buffer of a completed request |
| `VirtioDisk.Disk.Finish` | kernel/virtio_disk.c:283-292 | A caller whose buffer is unmarked finds its own request completed, and frees exactly its three descriptors |
| `Pipe.SlotAcrossOverflow` | kernel/pipe.c:95 | The slot of the 32-bit counter is that of the full count, across overflow |
| `Pipe.CountersApart` | kernel/pipe.c:88-113 | The full and empty tests on 32-bit counters are exact, and nwrite - nread modulo 2^32 is the number of bytes held |
| `Pipe.SlotsPush` | kernel/pipe.c:95 | A stored byte overwrites none that is not consumed |
| `Pipe.FlowPush` | kernel/pipe.c:88-96 | Storing a byte keeps: consumed bytes are a prefix of the stored ones and the rest is in the ring |
| `Pipe.FlowPop` | kernel/pipe.c:121-123 | So does taking one |
| `Pipe.OwnOrder` | kernel/pipe.c:76-103 | Each call's bytes are in the stream in its own order, whatever other calls stored between |
| `Pipe.Pipe.constructor` | kernel/pipe.c:33-37 | An empty pipe, both ends open |
| `Pipe.Pipe.Close` | kernel/pipe.c:58-74 | The end is closed; the pipe is freed exactly when both are |
| `Pipe.Pipe.IsFull` | kernel/pipe.c:88 | Full exactly when 512 bytes are stored and not consumed |
| `Pipe.Pipe.IsEmpty` | kernel/pipe.c:113 | Empty exactly when all stored bytes are consumed |
| `Pipe.Pipe.Store` | kernel/pipe.c:92-96 | One byte is appended to the stream |
| `Pipe.Pipe.Take` | kernel/pipe.c:121-123 | The oldest byte not consumed is taken |
| `Pipe.Pipe.Write` | kernel/pipe.c:76-103 | A piece of pipewrite between sleeps: which bytes it stored, and that it sleeps, returns the count, or returns -1 (without waking readers) exactly in the stated cases |
| `Pipe.Pipe.Read` | kernel/pipe.c:105-130 | A piece of piperead: the bytes delivered are the next of the stream; a byte whose copy fails is consumed and not counted; it sleeps, returns -1, a short count or 0 exactly in the stated cases |
| `Pipe.Pipe.Fifo` | kernel/pipe.c:76-130 | In every state the consumed bytes are a prefix of the stored ones and the counters' difference is between 0 and 512 |
| `ShellSpec.GetToken` | user/sh.c:271-314 | A token ends in the line, is not empty unless the line ended, and a word is a non-empty span of it |
| `ShellSpec.ParseRedirs` | user/sh.c:380-403 | Stays in the line and terminates |
| `ShellSpec.ParseArgs` | user/sh.c:436-448 | Stays in the line and terminates |
| `ShellSpec.ParseExec` | user/sh.c:421-452 | Stays in the line and terminates |
| `ShellSpec.ParseBlock` | user/sh.c:405-419 | Stays in the line and terminates |
| `ShellSpec.ParsePipe` | user/sh.c:367-378 | Stays in the line and terminates |
| `ShellSpec.ParseBacks` | user/sh.c:356-359 | Stays in the line and terminates |
| `ShellSpec.ParseLine` | user/sh.c:350-365 | Stays in the line and terminates |
| `ShellSpec.ParseCmd` | user/sh.c:333-348 | A tree only when the whole line is read; every line gives a tree or an error |
| `ShellPrint.RedirsBack` | user/sh.c:380-403 | Redirections written back parse to the same redirections |
| `ShellPrint.ArgsBack` | user/sh.c:436-448 | Arguments with redirections written back parse to the same |
| `ShellRoundTrip.ExecBack` | user/sh.c:421-452 | A simple command or block written back parses to the same |
| `ShellRoundTrip.PipesBack` | user/sh.c:367-378 | So does a pipeline |
| `ShellRoundTrip.BacksBack` | user/sh.c:356-359 | So does a background command |
| `ShellRoundTrip.LinesBack` | user/sh.c:350-365 | So does a list |
| `ShellRoundTrip.RoundTrip` | user/sh.c:333-452 | Every tree the grammar can build, written back, parses to the same tree |
| `ShellWords.TokenWhole` | user/sh.c:271-314 | A word token is a whole word: non-blank, bounded by a space, a symbol or the end |
| `ShellWords.RedirsWhole` | user/sh.c:380-403 | So are the files of redirections |
| `ShellWords.ArgsWhole` | user/sh.c:436-448 | And arguments |
| `ShellWords.LineWhole` | user/sh.c:350-365 | And every word of the tree of a line |
| `ShellWords.TextOk` | user/sh.c:333-452 | Every tree that parses is one that can be written back |
| `Shell.SkipSpace` | user/sh.c:278-279 | The loop over white space |
| `Shell.Gettoken` | user/sh.c:271-314 | The scanning loops compute the token function |
| `Shell.PeekAt` | user/sh.c:316-326 | Whether one of the characters comes next after white space |
| `Shell.Parseredirs` | user/sh.c:380-403 | The loop computes the redirection function |
| `Shell.Nulterminate` | user/sh.c:455-499 | Exactly the ends of the words of the tree become NUL |
| `Shell.EndsOutside` | user/sh.c:455-499 | Every end is at a space, a symbol or the end of the line |
| `Shell.NotInside` | user/sh.c:455-499 | No terminator lands inside a word |
| `Shell.WordsReadBack` | user/sh.c:455-499 | After nulterminate every word reads back, as a C string, exactly its characters |
| `Shell.Parsecmd` | user/sh.c:333-348 | The tree of the line, and every word of it a string of its own in the buffer |
| `Shell.ReparseSame` | user/sh.c:333-452 | Any line that parses gives a tree that, written back and parsed again, is the same tree |

## Left out

- Shared memory (kernel/shm.c): a process that maps the shared page is outside the page-ownership theorems, and reference counts above one with it.
- Device registers, traps, assembly and interrupts (kernel/trap.c, kernel/plic.c, kernel/uart.c, kernel/swtch.S and others): `swtch` is a hand-over that keeps lock ownership.
- Memory fences and the atomic swap in `acquire`.
- `kernel/exec.c`, `copyinstr`, path walking (`skipelem`, `namex`), file tables and system-call argument fetching: glue over what is modelled.
- printf, console, mkfs beyond the first directory, string helpers and the small user programs: they would only add easy members.
- Semaphores: `sem_down` does not look at killed, so the model lets a killed process go on waiting for the count, as the code does.
- ExitWait: a process yields only at user level, and open files, memory and the working directory of a process are not modelled.
- Log: buffers are counted, their contents are a cache map; one block write of a commit, from getting its buffers to releasing them, is one step.
- FileSystem: each method works on one inode in memory, and the chunks of one filewrite are not interleaved with other writers; the bytes of an inode on disk are typed fields, not a block layout.
- FileSystem.FileSystem.Writei: a user copy within a block is all or nothing, because the code releases the buffer of a failed copy without logging it.
- FileOps: a path walk that frees a directory removed meanwhile adds that directory's inode block to the call's, which is not counted; disks of more than five bitmap blocks are not covered.
- Links: the parent directory and the inode that path walking found are parameters; create and unlink are single steps, since they hold the directory's lock.
- InodeTable: the buffer and log below, and the blocks that itrunc frees, are not part of the state; the fields other than type and link count are one value.
- Memory.Memory.Kfree: dropping and testing the count is one step, where the code has two critical sections; a page with another reference is excluded.
- Memory.Memory.Mappages: one page at a time, as every caller in scope does; the remap panic is a precondition.
- Memory.Memory.Uvmunmap: only with freeing.
- Memory: a page is a table or bytes, not both, and free-list links are not stored in the pages.
- UserMemory.Vmfault: the page table is the one of the current process, whose size is at most the user range, since `sys_sbrk` sets no bound itself.
- Umalloc.Heap.Malloc: the heap is below 2^36 bytes, what it hands out counts as its own also beyond the break, and the program calls sbrk only through malloc; after a request that leaves blocks beyond the break no further call is modelled.
- BufferCache: blocks of device 0 are excluded, since every buffer starts as block 0 of device 0; taking a sleep-lock is a separate step after `bget`.
- VirtioDisk: the status byte is always success, notification and wakeups are not modelled, and a requester that waits for descriptors or for completion is a later call of `Submit` or `Finish`.
- Pipe: wakeups are a flag of the result, and the channel queues are not modelled.
- Shell: `runcmd` and reading a line; `parseline`, `parsepipe`, `parseblock` and `parseexec` are functions, since they only build trees.

# AEOS in Dafny

A model of the parts of AEOS that carry its hardest promises, and proofs of those promises.
`dafny verify dfyconfig.toml` checks the whole project.

| files | component |
|---|---|
| `Bytes`, `BlockDevice`, `AfsFormat`, `AfsLayout`, `AfsDisk`, `Afs`, `AfsRuns` | AEOS-FS: a directory sector, contiguous extents, a free list and a bump pointer, against a map from names to bytes |
| `FdtTree`, `FdtWalker`, `FdtProof`, `FdtMeaning` | the boot loader's device-tree walker, against a query over trees, and what the query means in bytes |
| `SmpQueue`, `SmpProgress` | the spinlock and the job ring shared by all cores, one memory access at a time: safety and progress |
| `Scheduler`, `SchedulerRuns`, `Sync` | the round-robin scheduler with its watchdog, the mutex and the semaphore |
| `Bitmaps`, `Pmm`, `FrameAllocator` | the kernel's page bitmap and the Rust frame allocator with its free stack |
| `PageTables`, `KernelMap` | per-process address spaces and the kernel's identity map |
| `FixedPoint`, `Network`, `AiCore`, `CmtCore`, `CmtEngine`, `QLearning`, `Learner`, `AiEngine`, `Mirror` | the Q16.16 engines, what drives them, and the Python mirror |
| `Capabilities` | the capability manager |

Objects that the source updates in place are classes with the source's fields; each method is
proved equal to a function of the old state, and the properties of runs are lemmas about those
functions. The job queue is a state machine over its memory accesses, because what matters
there is the interleaving. Subset types of `int` stand for fixed-width integers; where the
source wraps or truncates, the model says so, and where it must not overflow, every assignment
to such a type is a check.

What the environment does is a parameter: sectors fail or not, a store-exclusive fails or not,
memory sensors report anything sane, events come in any order.

## Main results

- **File system.** On a device that does not fail, any session of writes, reads, deletes and
  reboots behaves as a map from names to bytes that refuses a write only for a bad request or
  when no freed extent is long enough and the room above the files may be used up
  (`AfsRuns.Session`); what a delete frees can be written again (`AfsRuns.RemovedRoomReused`,
  `AfsRuns.DeleteThenWrite`). A device that stops at any sector of a write into a new
  extent, or of a delete, leaves exactly the old or the new map, and the next boot mounts it
  (`AfsRuns.CrashInWrite`, `AfsRuns.CrashInDelete`). Live extents, free
  extents and the bump region stay disjoint throughout (`AfsLayout.Layout` in every `Valid`).
- **Device tree.** On every printed tree, with any NOPs, the token loop returns what the
  recursive query returns (`FdtProof.WalkTree`): the base and size that are printed in the first
  memory node, in the cells the root declares (`FdtMeaning.QueryMeans`). On any bytes it reads
  only inside the two blocks and ends (`FdtWalker.DtbMemory`).
- **Job queue.** In every interleaving: one holder, first in first out, nothing lost or run
  twice, a drop only with 15 jobs pending (`SmpQueue.EveryRun`, `SmpQueue.StepRefines`). A free
  lock is taken within 5 moves per core, unless store-exclusives fail for no reason, and given
  back after 6 of its holder's (`SmpProgress.SomebodyGetsIn`, `SmpProgress.HolderLeaves`), an
  operation left alone has its effect within 9 steps (`SmpProgress.LeftAlone`), and no state is a
  deadlock (`SmpProgress.NoDeadlock`).
- **Scheduler.** Safety in every run (`SchedulerRuns.NextSafe`), and a ready task runs within
  its cyclic distance, at most 15 departures, while nobody runs twice
  (`SchedulerRuns.RunsInTime`, `SchedulerRuns.NobodyRunsTwice`). The watchdog flags exactly at
  its limit (`SchedulerRuns.WatchdogExact`). On top of it, mutual exclusion and token
  conservation (`Sync.EveryRun`), and exactly when the retry loops of mutex and semaphore are
  fair (`Sync.FirstTryIff`, `Sync.FirstWaitIff`, `Sync.GetsMutexInTime`,
  `Sync.GetsTokenInTime`).
- **Memory.** Both allocators agree with their bitmaps in every run; mapping a block changes
  where exactly that block of exactly that space lies, and gives it exactly the attributes asked
  for (`PageTables.Mmu.MapBlock`, `PageTables.BlockMappingMeans`); the kernel map is the identity
  exactly on RAM and the devices (`KernelMap.IdentityExactly`), as normal and device memory
  (`KernelMap.KernelAttributes`).
- **Engines.** An inference stays within 32 bits if and only if the ratio of the inference and
  error counters is at most 1073709055 in magnitude (`CmtCore.DefinedIff`), which always holds
  until they wrap when added (`CmtCore.SaneDefined`, `AiEngine.RoomFits`). In every run that
  meets this condition level 3 and the 50 Hz step never occur and the rate stays in [20, 200]
  (`AiEngine.Ai.Run`). Until the 652nd error no learned value was ever clamped
  (`AiEngine.Ai.TableUnclamped`), and the network never chooses BOOST (`AiCore.NeverBoosts`). In
  the kernel's inferences a lead above 6, and no smaller one, makes the Python mirror decide the
  same (`Mirror.LeadSufficesIff`).
- **Capabilities.** Whatever is held after any delegations and revocations was held before or
  is covered by one delegatable capability held before (`Capabilities.EveryRun`), and a
  delegation gives exactly the rights that the giver's capability and the request share
  (`Capabilities.DelegateGives`, `Capabilities.DelegateAllows`).

## Where the code does not do what it says

The members named here state the exact conditions.

- `kernel/afs.h:5-7` puts the directory at sectors 1 to 8 and data from 9; the code uses one
  directory sector and data from 2 (`kernel/afs.c:17-18`, `kernel/afs.c:175`). The model
  follows the code.
- `afs_read` may deliver more than `max` bytes: it does not exactly if the file fits `max` or
  `max` is a multiple of 4096 (`Afs.ReadFitsBuffer`).
- `afs_delete` frees the extent in memory before it writes the directory. If that write is lost
  while the system keeps running, the layout is broken exactly unless the free list was full
  (`AfsLayout.UnflushedDeleteBreaksLayout`, `Afs.Volume.Delete`).
- `afs_mount` reports success when the directory cannot be read; that is harmless exactly if
  there are no files (`AfsLayout.BlindMountLayout`, `Afs.Volume.Mount`).
- The 32-bit comparison of the bump allocator is right for all requests exactly if the volume
  ends 2048 sectors before the address limit (`AfsLayout.BumpGuardExact`).
- `kernel/afs.h:24` says that the volume occupies [base, base + total). Format records the
  whole device's capacity as the total, so that holds exactly for base 0
  (`AfsLayout.DeviceGuardExact`); at the shipped base of 8192 the last 8192 sectors of the
  volume do not exist (`AfsLayout.ShippedBaseOverruns`). Writes that are placed there fail
  (`Afs.Volume.Accepts` in the contract of `Afs.Volume.Write`).
- `afs_mount` and `afs_format` keep the free list of a volume in use. A remount is sound exactly
  when no free extent lies above the live ones (`AfsLayout.RemountLayout`), a format exactly
  when the list is empty (`AfsLayout.ReformatLayout`).
- `kernel/sync.h:6-8` says that the round-robin scheduler makes retry loops fair. Every try
  on the mutex succeeds at once exactly in the runs in which nobody gives up the CPU while the
  mutex is held and somebody waits (`Sync.FirstTryIff`); every try on the semaphore exactly in
  the runs whose waits never catch up with the tokens and posts (`Sync.FirstWaitIff`). There a
  waiting task is served within 15 hand-offs (`Sync.GetsMutexInTime`, `Sync.GetsTokenInTime`).
  Otherwise one task can starve for any number of rounds on either, from a state two acts after
  boot (`Sync.StarvationReachable`).
- `as_map_block` accepts addresses in top-level slot 0 although `boot/aarch64/vmm.h:18-21`
  keeps users out of it; there it changes the translation of every space and of the kernel
  (`PageTables.Mmu.MapBlock`).
- `boot/aarch64/memory.h:53-56` shifts the access permissions by 5; the VMSAv8-64 descriptor has
  them in bits 7 and 6. So a permission opens a mapping to users exactly when its upper bit is
  set, and never makes it read-only (`PageTables.PermissionMisplaced`): of the presets only the
  one meant to be read-only is open to users, and it is writable (`PageTables.PresetsMean`), and
  RAM, described as read-write at both levels (`boot/aarch64/vmm.c:187-191`), is the kernel's only
  (`KernelMap.KernelAttributes`).
- Sharing one table between two middle-level entries also makes RAM visible at address 0
  (`KernelMap.SharedTableAliases`).
- `kernel/cmt.h` calls the decision history a ring buffer; the code keeps the first 32 entries
  and drops the rest (`CmtEngine.Cmt.Record`).
- Both engines reset their tick counter before they perceive, so the timer input is the
  constant -1.0 in every inference (`AiCore.Perceive`, `CmtCore.CmtPerceive`).
- `kernel/cmt_core.c:58-59` adds the inference and error counters in 32 bits. Once the sum
  wraps, their ratio need not be a fraction, and the forward pass stays within 32 bits exactly
  while it is at most 1073709055 in magnitude (`CmtCore.DefinedIff`). 16384 inferences and
  0xFFFFC001 errors break it (`CmtCore.WrappedCountersOverflow`), and a run from boot gets there
  (`AiEngine.OverflowReachable`).
- Six to ten errors put pressure bucket 5 above bucket 6, although errors are meant to push
  states up (`QLearning.StateMonotoneIff`).
- The reward falls with pressure and errors exactly up to 1634 errors; with one more it wraps
  and full memory is rewarded above empty memory (`QLearning.RewardAntitoneIff`,
  `QLearning.RewardWraps`).
- The percentages are right exactly up to 42949672 bytes or pages in use
  (`AiEngine.PercentExactIff`).
- The Python mirror rounds activations down where the kernel truncates. Decisions agree when
  the winner leads by more than 6 in the kernel's inferences and by more than 7 on everything
  the sensors can produce, and both numbers are exact (`Mirror.LeadSufficesIff`); on arbitrary
  integers more than 10 is enough (`Mirror.DecisionsAgree`). Its rate step agrees with the kernel's exactly as
  `Mirror.ActAgrees` says.
- `delegate` looks only at the first capability of the giver (`Capabilities.DelegateWorksIff`),
  and `init` grants the kernel task nothing (`Capabilities.SecurityManager.Init`).

## Model

| member | source | states |
|---|---|---|
| BlockDevice.Device.Read | kernel/afs.c:69-72 | a successful read returns the sectors; a reliable device fails no request within its capacity |
| BlockDevice.Device.Write | kernel/afs.c:74-77 | a failed write may have reached any prefix of its sectors, a successful one all of them, and no other sector changes |
| AfsFormat.DirentRoundTrip | kernel/afs.c:20-24 | decoding an encoded directory entry gives it back |
| AfsFormat.DirectoryRoundTrip | kernel/afs.c:56-57 | decoding the directory sector gives back all 16 entries |
| AfsFormat.SuperblockRoundTrip | kernel/afs.c:26-31 | decoding an encoded superblock gives it back |
| AfsFormat.FieldsOnDisk | kernel/afs.c:20-31 | each field is the little-endian number at its offset of the sector |
| AfsFormat.BlocksForMeans | kernel/afs.c:274-275 | the fewest sectors that hold so many bytes |
| AfsFormat.Find | kernel/afs.c:243-251 | the first live entry with the name, or none exists |
| AfsFormat.FirstFree | kernel/afs.c:244-248 | the first free slot, or all are live |
| AfsFormat.StoredNameFaithful | kernel/afs.c:254-256 | a stored name reads back as itself if and only if it has at most 23 characters |
| AfsFormat.FilesFrame | kernel/afs.c:311-324 | changing no sector of a file's extent leaves that file's bytes |
| AfsFormat.FilesCommit | kernel/afs.c:326-333 | committing one slot updates exactly that name in the file map |
| AfsFormat.FilesRemove | kernel/afs.c:391-392 | freeing one slot removes exactly that name from the file map |
| AfsFormat.FullDirectory | kernel/afs.c:252-253 | a directory without a free slot lists 16 files |
| AfsFormat.DirectoryWithRoom | kernel/afs.c:252-253 | one with a free slot lists fewer |
| AfsLayout.FirstFit | kernel/afs.c:83-84 | the first free extent that is large enough, or none is |
| AfsLayout.ChosenBelow | kernel/afs.c:299-306 | a request that fits above the bump pointer is placed below the same limit wherever it is placed |
| AfsLayout.TakeMeans | kernel/afs.c:80-97 | placing a request takes exactly its sectors off the free list, or off the bump region when no listed extent is long enough |
| AfsLayout.CutFrontLayout | kernel/afs.c:80-97 | taking the front of a free extent keeps all extents disjoint, and what was taken belongs to nobody |
| AfsLayout.BumpLayout | kernel/afs.c:302-306 | advancing the bump pointer keeps all extents disjoint, and what was taken belongs to nobody |
| AfsLayout.CommitLayout | kernel/afs.c:293-309 | giving an unowned extent to a slot keeps all extents disjoint |
| AfsLayout.FindCommitted | kernel/afs.c:326-330 | after the slot is committed the name is found there if and only if it has at most 23 characters |
| AfsLayout.ShrinkLayout | kernel/afs.c:277-291 | a rewrite that needs no more sectors keeps all extents disjoint |
| AfsLayout.DeleteLayout | kernel/afs.c:383-391 | moving a deleted file's extent to the free list keeps all extents disjoint |
| AfsLayout.ReclaimMeans | kernel/afs.c:100-108 | a delete puts exactly the sectors of the file on the free list, unless 32 extents are listed |
| AfsLayout.UnflushedDeleteBreaksLayout | kernel/afs.c:383-392 | without the directory write the layout survives if and only if the free list was full |
| AfsLayout.ResumeAt | kernel/afs.c:143-155 | the bump pointer resumes at the highest end of a live extent |
| AfsLayout.MountLayout | kernel/afs.c:138-155 | mounting re-establishes the layout |
| AfsLayout.RemountLayout | kernel/afs.c:138-155 | mounting a volume in use is sound if and only if no free extent lies above the live ones |
| AfsLayout.ReformatLayout | kernel/afs.c:180-187 | formatting is sound if and only if the free list was empty |
| AfsLayout.BlindMountLayout | kernel/afs.c:144-145 | mounting without the directory gives a sound layout if and only if there is no file |
| AfsLayout.ScannedEnd | kernel/afs.c:150-152 | the 32-bit end computed by the scan is the true end |
| AfsLayout.BumpGuardExact | kernel/afs.c:304-305 | the 32-bit guard decides correctly for all requests if and only if the volume leaves 2048 sectors below the address limit |
| AfsLayout.DeviceGuardExact | kernel/afs.c:173-174 | with the total that format records, the disk-full test agrees with the end of the device if and only if the volume starts at sector 0 |
| AfsLayout.ShippedBaseOverruns | kernel/afs.h:21-24 | at the shipped base a sector past the end of the device passes the test |
| AfsDisk.UnownedWrite | kernel/afs.c:311-324 | writing to sectors nobody owns, wherever it stops, changes no file |
| AfsDisk.NewFileFlush | kernel/afs.c:326-333 | the directory write that commits a new extent makes exactly the new file map |
| AfsDisk.OwnedWrite | kernel/afs.c:277-324 | writing into a file's own extent, wherever it stops, changes no other file |
| AfsDisk.RewriteFlush | kernel/afs.c:326-333 | the directory write after a rewrite makes exactly the new file map |
| AfsDisk.FileLookup | kernel/afs.c:348-352 | a name is found if and only if it is in the file map, and its entry locates its bytes |
| AfsDisk.DeleteFlush | kernel/afs.c:383-392 | the directory write of a delete removes exactly the name and keeps the layout |
| AfsDisk.DeleteUnflushed | kernel/afs.c:383-392 | if that write is lost, the volume stays sound if and only if the free list did not change |
| AfsDisk.FormattedDisk | kernel/afs.c:170-187 | a formatted disk is good if and only if sector numbers stay below the address limit; it holds no file, and with the free list kept the volume is sound if and only if that list is empty |
| AfsDisk.ResumeBelow | kernel/afs.c:143-155 | a mount never puts the bump pointer above where it was |
| AfsDisk.SlotLeft | kernel/afs.c:243-253 | a new name finds a slot if and only if fewer than 16 files exist |
| Afs.NameEqual | kernel/afs.c:60-67 | true if and only if the stored name is the given one |
| Afs.CopyName | kernel/afs.c:254-256 | at most 23 characters, padded with NUL |
| Afs.ChunkWritten | kernel/afs.c:311-324 | one more chunk on disk extends the prefix of the data that the extent holds |
| Afs.ReadFitsBuffer | kernel/afs.c:353-367 | a read delivers at most `max` bytes if and only if the file fits or `max` is a multiple of the chunk |
| Afs.Volume.constructor | kernel/afs.c:40-57 | boot state: not mounted, empty free list |
| Afs.Volume.ReadSectors | kernel/afs.c:69-72 | the sectors at the volume's offset |
| Afs.Volume.WriteSectors | kernel/afs.c:74-77 | changes only the addressed sectors; a single sector is written whole or not at all |
| Afs.Volume.LoadDirectory | kernel/afs.c:111-116 | the cache becomes the directory on disk, or stays as it was |
| Afs.Volume.FlushDirectory | kernel/afs.c:118-121 | the directory sector becomes the encoded cache, or the disk stays as it was |
| Afs.Volume.FindSlot | kernel/afs.c:238-258 | the entry of the name, else when creating the first free slot with the name filled in, else none |
| Afs.Volume.TakeFree | kernel/afs.c:80-97 | takes the front of the first extent that fits, or reports that none fits |
| Afs.Volume.AddFree | kernel/afs.c:100-108 | appends the extent unless 32 are listed |
| Afs.Volume.WriteChunk | kernel/afs.c:311-324 | one staged chunk reaches its sectors and no others |
| Afs.Volume.WriteData | kernel/afs.c:311-324 | on success the extent holds exactly the data; only its sectors change |
| Afs.Volume.Allocate | kernel/afs.c:299-307 | fails if and only if neither the free list nor the bump region fits; otherwise first fit, else the bump pointer, the extent belongs to nobody, and exactly its sectors are taken |
| Afs.Volume.Existing | kernel/afs.c:277-291 | the extent to rewrite in place when the file exists and still fits |
| Afs.Volume.Reserve | kernel/afs.c:293-309 | a slot and an unowned extent, or failure exactly when one of them is missing |
| Afs.Volume.Finish | kernel/afs.c:326-333 | the size is recorded and the directory written, or nothing changes |
| Afs.Volume.WriteNew | kernel/afs.c:260-334 | a write into a new extent is atomic; on a reliable device it succeeds if and only if the name is short, there is room, and the device has the sectors |
| Afs.Volume.WriteOver | kernel/afs.c:260-334 | a rewrite in place can disturb only its own file |
| Afs.Volume.Write | kernel/afs.c:260-334 | success stores exactly the data, other files never change, failure on a reliable device changes nothing; it succeeds there if and only if `Accepts` held before, and takes one extent if and only if `Consumes` did |
| Afs.Volume.ReadChunk | kernel/afs.c:353-366 | the chunk's bytes of the extent |
| Afs.Volume.ReadData | kernel/afs.c:353-368 | the file's prefix, rounded up to whole chunks |
| Afs.Volume.Read | kernel/afs.c:336-369 | returns the file's bytes, and on a reliable device fails if and only if the file is missing or the request is void |
| Afs.Volume.Delete | kernel/afs.c:371-393 | removes exactly the name or leaves the map; success frees exactly the sectors of the file unless the list is full; the volume stays sound if and only if the directory write happened or the free list did not change |
| Afs.Volume.ResumeBump | kernel/afs.c:143-155 | the bump pointer becomes the highest end of a live extent |
| Afs.Volume.Mount | kernel/afs.c:123-161 | at boot re-establishes the invariant with the disk's file map, without the directory if and only if there is no file; on a volume in use sound if and only if no free extent lies above the live ones |
| Afs.Volume.WriteSuperblock | kernel/afs.c:170-178 | the superblock sector holds exactly the encoding |
| Afs.Volume.Format | kernel/afs.c:163-191 | a mounted volume with the sector count cut to 32 bits; its disk is good if and only if sector numbers stay below the address limit, and then it has no files and is sound if and only if the free list was empty |
| AfsRuns.StoredNamesShort | kernel/afs.c:254-256 | no file on a sound disk has a name of more than 23 characters |
| AfsRuns.AcceptsUnlessRefusable | kernel/afs.c:267-306 | a write that the reference may not refuse is accepted |
| AfsRuns.RemovedRoomReused | kernel/afs.c:383-389 | after a delete with fewer than 32 extents listed, a write of at most as many sectors to a short name may not be refused |
| AfsRuns.DrawIsTake | kernel/afs.c:80-97 | the lengths of the freed extents evolve as the reference books them |
| AfsRuns.WriteBooked | kernel/afs.c:299-307 | a write draws from the reference's book exactly what it takes from the allocator |
| AfsRuns.DeleteBooked | kernel/afs.c:383-389 | a delete adds to the book exactly the length it frees |
| AfsRuns.Call | kernel/afs.c:260-393 | each call on a reliable device answers and changes files as the map allows; a write succeeds if and only if the volume accepts it |
| AfsRuns.Session | kernel/afs.c:123-393 | any session of writes, reads, deletes and reboots refines the map from names to bytes, and a write is refused only for a bad length or name, 16 other files, or when no extent freed since the last reboot is long enough and the writes outgrew the room above the files |
| AfsRuns.Boot | kernel/afs.c:123-161 | mounting after a reboot shows the same files |
| AfsRuns.Restart | kernel/afs.c:123-161 | a reboot keeps the files and never moves the bump pointer up |
| AfsRuns.PowerCycle | kernel/afs.c:123-161 | after a power failure the next boot mounts exactly what the medium holds |
| AfsRuns.WriteThenRead | kernel/afs.c:260-369 | a written file reads back with exactly its bytes when the buffer is large enough |
| AfsRuns.DeleteThenWrite | kernel/afs.c:260-393 | after a delete a write of at most the deleted size to any short name succeeds, unless the free list was full |
| AfsRuns.CrashInWrite | kernel/afs.c:260-334 | at every crash point the next boot mounts, and its map is the old or the new one; a rewrite disturbs only its own file |
| AfsRuns.CrashInDelete | kernel/afs.c:371-393 | at every crash point the next boot mounts, and its map is the old one or lacks exactly the name |
| FdtWalker.Read32 | boot/aarch64/loader.c:40-53 | the big-endian word at the position |
| FdtWalker.StringLength | boot/aarch64/loader.c:56-63 | the distance to the next NUL or the end |
| FdtWalker.StringEqual | boot/aarch64/loader.c:65-72 | true if and only if the terminated string is the literal |
| FdtWalker.StartsWith | boot/aarch64/loader.c:74-84 | true if and only if the literal is a prefix |
| FdtWalker.StringAt | boot/aarch64/loader.c:125-133 | true if and only if the offset is inside the block and a NUL follows |
| FdtWalker.ReadCells | boot/aarch64/loader.c:310-314 | the cells as one number |
| FdtWalker.AlignFits | boot/aarch64/loader.c:295-297 | the 32-bit rounding and the two comparisons reject exactly the values that do not fit |
| FdtWalker.ReadReg | boot/aarch64/loader.c:302-317 | the base and size pair as `FdtMeaning.RegMeans` says, or nothing when the cell counts or the length are wrong |
| FdtWalker.TakeProperty | boot/aarch64/loader.c:298-324 | stops exactly at the memory node's `reg`, and otherwise notes the root's cell counts |
| FdtWalker.WalkProperty | boot/aarch64/loader.c:285-324 | a property token advances the walk as the specification of the walk does |
| FdtWalker.WalkBegin | boot/aarch64/loader.c:268-280 | a node token advances the walk as the specification of the walk does |
| FdtWalker.MemoryName | boot/aarch64/loader.c:278-280 | true if and only if the name is `memory` or `memory@` and more |
| FdtWalker.WalkBlock | boot/aarch64/loader.c:259-329 | the token loop ends on any bytes and computes the walk |
| FdtWalker.DtbMemory | boot/aarch64/loader.c:234-330 | for every header and content: nothing if the blocks do not fit, else the walk, reading only inside the two blocks |
| FdtProof.PropertyStep | boot/aarch64/loader.c:285-324 | a printed property is answered or noted and then skipped |
| FdtProof.DeepNode | boot/aarch64/loader.c:268-284 | a node below the root's children has no effect, whatever its name |
| FdtProof.MemoryProps | boot/aarch64/loader.c:302-317 | among a memory node's properties the first `reg` is decoded |
| FdtProof.RootProps | boot/aarch64/loader.c:318-324 | the root's properties set the cell counts |
| FdtProof.RootChild | boot/aarch64/loader.c:278-317 | a child of the root is answered if and only if it is a memory node with a `reg` |
| FdtProof.RootForest | boot/aarch64/loader.c:259-329 | among the root's children the first memory node with a `reg` decides |
| FdtProof.WalkNops | boot/aarch64/loader.c:265-266 | NOPs have no effect |
| FdtProof.Malformed | boot/aarch64/loader.c:259-328 | an unknown token, a property or name that does not fit, and the end of the block stop the walk without an answer |
| FdtProof.WalkTree | boot/aarch64/loader.c:234-330 | on every printed tree the walk is the recursive query |
| FdtProof.FindMemory | boot/aarch64/loader.c:234-330 | the loop over a blob that holds a printed tree returns what the query over the tree returns |
| FdtMeaning.MemoryNameMeans | boot/aarch64/loader.c:278-280 | a memory node is called `memory`, with or without a unit address |
| FdtMeaning.ResolvePrinted | boot/aarch64/loader.c:125-133 | a terminated string in the strings block is found at its offset |
| FdtMeaning.CellValueIs | boot/aarch64/loader.c:310-314 | cells are the big-endian number of their bytes |
| FdtMeaning.RegMeans | boot/aarch64/loader.c:302-317 | a value decodes to base and size if and only if it is the base printed in the address cells followed by the size printed in the size cells |
| FdtMeaning.CellsMean | boot/aarch64/loader.c:318-324 | the last `#address-cells` sets the address cells, the last `#size-cells` the size cells, and neither leaves the default |
| FdtMeaning.FirstRegIs | boot/aarch64/loader.c:268-317 | the value that counts is the first `reg` of the first memory child that has one |
| FdtMeaning.QueryMeans | boot/aarch64/loader.c:234-330 | the answer is (base, size) if and only if that pair is printed there, base first, in as many cells each as the root declares, two and one by default |
| FdtMeaning.WalkFindsPrinted | boot/aarch64/loader.c:234-330 | the walk over a printed tree finds the region that was printed into it |
| SmpQueue.OnlyHolderChanges | boot/aarch64/smp.c:161-195 | a core outside the critical section changes neither ring nor indices |
| SmpQueue.LockStep | boot/aarch64/smp.c:38-62 | the lock is taken only when free and released only by its holder, given sound exclusive monitors |
| SmpQueue.ExclusionKept | boot/aarch64/smp.c:38-62 | every step keeps at most one core inside, and the lock word says whether one is |
| SmpQueue.RingFull | boot/aarch64/smp.c:166-169 | the index tests say full exactly at 15 jobs and empty exactly at none |
| SmpQueue.RingEnqueue | boot/aarch64/smp.c:171-173 | storing at the tail appends |
| SmpQueue.RingDequeue | boot/aarch64/smp.c:188-191 | taking at the head removes the oldest |
| SmpQueue.StepRefines | boot/aarch64/smp.c:161-195 | each step leaves the abstract queue alone, appends the submitted job, or removes the oldest; a drop happens exactly with 15 pending, an empty pop exactly with none |
| SmpQueue.StepKeepsInv | boot/aarch64/smp.c:38-195 | every step of any core keeps the whole invariant |
| SmpQueue.ConservedKept | boot/aarch64/smp.c:183-239 | every step keeps popped jobs equal to run jobs plus jobs in hand |
| SmpQueue.After | boot/aarch64/smp.c:38-239 | the invariant holds after every schedule |
| SmpQueue.AlwaysConserved | boot/aarch64/smp.c:183-239 | no popped job is lost or run twice, in every schedule |
| SmpQueue.EveryRun | boot/aarch64/smp.c:38-239 | in every schedule: exclusion, pops in submit order, at most 15 pending, every accepted job run, in hand or pending exactly once |
| SmpProgress.HolderLeaves | boot/aarch64/smp.c:56-195 | in every schedule, whoever holds the lock has given it back after at most 6 moves of its own |
| SmpProgress.SomebodyGetsIn | boot/aarch64/smp.c:38-54 | in every schedule without failures for no reason, a free lock is taken before the cores' remaining spins are used up |
| SmpProgress.SpinsBound | boot/aarch64/smp.c:38-54 | these are at most 5 per core |
| SmpProgress.Acquires | boot/aarch64/smp.c:38-54 | a core left alone takes a free lock, in 3 steps from the start, and nothing else happens |
| SmpProgress.Finishes | boot/aarch64/smp.c:161-239 | from any point inside, an operation left alone ends in exactly the remaining steps with exactly the remaining effect |
| SmpProgress.LeftAlone | boot/aarch64/smp.c:38-239 | a submit appends its job or is dropped with 15 pending, a pop takes out and runs the oldest job or finds none; in 9, 6, 9 and 5 steps |
| SmpProgress.NoDeadlock | boot/aarch64/smp.c:38-239 | every operation that has begun can be finished from every state |
| Scheduler.NextReady | kernel/sched.c:67-77 | the ready slot that comes first going round, or none is ready |
| Scheduler.FreeSlot | kernel/sched.c:137-149 | the lowest reusable slot, or there is none |
| Scheduler.Table.Initialize | kernel/sched.c:108-135 | the boot context runs in slot 0, all others are unused |
| Scheduler.Table.FindReady | kernel/sched.c:67-77 | the loop finds that slot |
| Scheduler.Table.FindFree | kernel/sched.c:137-149 | the loop finds that slot |
| Scheduler.Table.OnTick | kernel/sched.c:83-102 | accounts the tick and flags a starving task other than slot 0 |
| Scheduler.Table.SpawnTask | kernel/sched.c:151-196 | a fresh ready task in the lowest reusable slot, or no change |
| Scheduler.Table.ExitTask | kernel/sched.c:299-327 | ends the current task and hands over, or parks |
| Scheduler.Table.KillTask | kernel/sched.c:243-262 | the kill branch of a yield is an exit |
| Scheduler.Table.YieldTask | kernel/sched.c:234-297 | hands over to the next ready task, or goes on alone, or is killed |
| SchedulerRuns.InitSafe | kernel/sched.c:108-135 | initialisation is safe |
| SchedulerRuns.TickSafe | kernel/sched.c:83-102 | a tick keeps safety and the current task |
| SchedulerRuns.SpawnSafe | kernel/sched.c:167-196 | a spawn keeps safety and the current task |
| SchedulerRuns.ExitSafe | kernel/sched.c:299-327 | an exit keeps safety and parks if and only if nothing is ready |
| SchedulerRuns.YieldSafe | kernel/sched.c:234-297 | a yield keeps safety and parks if and only if the current task is flagged and nothing is ready |
| SchedulerRuns.NextSafe | kernel/sched.c:83-327 | every event keeps: one running task and it is the current one, parked only with nothing ready, no ready task flagged, slot 0 never flagged |
| SchedulerRuns.After | kernel/sched.c:83-327 | every run is safe |
| SchedulerRuns.SpawnEffect | kernel/sched.c:151-196 | the lowest unused or finished slot becomes a fresh ready task; without one, or with bad arguments, nothing changes |
| SchedulerRuns.ExitEffect | kernel/sched.c:299-327 | the current task is finished, the next ready one runs, no other slot changes |
| SchedulerRuns.YieldEffect | kernel/sched.c:264-297 | the count starts again, a yield that hands over is counted, no other slot changes |
| SchedulerRuns.FlaggedNeverRunsAgain | kernel/sched.c:243-262 | a flagged task ends at its next yield, and its slot changes only by a new spawn |
| SchedulerRuns.WatchdogExact | kernel/sched.c:83-102 | from any count and for any number of ticks, wraps included, a task is flagged if and only if it was, or is watched and its count reached the limit; ticks are charged to it and to nobody else |
| SchedulerRuns.ReachesIff | kernel/sched.c:92-94 | short of a wrap that is if and only if it has now gone without a yield for the limit; 2^32 ticks reach every limit |
| SchedulerRuns.NewLimitCounts | kernel/sched.c:439-442 | a new limit counts from the next tick on |
| SchedulerRuns.DispatchedFresh | kernel/sched.c:264-281 | whoever gets the CPU starts with a clean count |
| SchedulerRuns.YieldRestartsWatchdog | kernel/sched.c:264-281 | a yield that does not end the running task starts its count again |
| SchedulerRuns.NobodyWaits | kernel/sched.c:234-327 | with nobody ready the CPU stays where it is, whatever happens |
| SchedulerRuns.LeavingComesCloser | kernel/sched.c:234-327 | each departure brings the CPU closer to a waiting task by the distance covered |
| SchedulerRuns.RunsInTime | kernel/sched.c:67-327 | a ready task runs after at most as many departures as its cyclic distance, whatever the others do |
| SchedulerRuns.DistanceBound | kernel/sched.c:67-77 | that distance is at most 15 |
| SchedulerRuns.NobodyRunsTwice | kernel/sched.c:67-327 | meanwhile the dispatched slots move strictly towards it, so none runs twice |
| Sync.LockUnlock | kernel/sync.c:22-52 | between a successful try and the holder's unlock nobody else gets in or can release, and the unlock gives the mutex back as it was found |
| Sync.PostThenWait | kernel/sync.c:64-91 | a post pays for exactly one wait |
| Sync.Mutex.TryAcquire | kernel/sync.c:22-37 | the transition that runs are built from; success shuts everybody else out and failure leaves the holder alone |
| Sync.Mutex.Release | kernel/sync.c:46-52 | the transition that runs are built from; the holder's release lets anyone in and anybody else's changes nothing |
| Sync.Semaphore.TryTake | kernel/sync.c:64-77 | the transition that runs are built from; the count never falls below zero and a post would restore it |
| Sync.Semaphore.Give | kernel/sync.c:85-91 | the transition that runs are built from; the next try gets exactly what was there before |
| Sync.DoKeepsInv | kernel/sync.c:22-91 | every act keeps: whoever is inside owns the mutex, tokens add up |
| Sync.UnlockFrees | kernel/sync.c:46-52 | an unlock by its holder frees the mutex for whoever tries next |
| Sync.EveryRun | kernel/sync.c:22-91 | two tasks are never both inside, and the count is initial plus posts minus waits and never negative, over every disciplined run |
| Sync.OpenStep | kernel/sync.c:22-91 | from a state where a try succeeds, an act leads to another such state if and only if the mutex is free, or the act does not give up the CPU, or nobody waits for it |
| Sync.SwitchIff | kernel/sync.c:39-83 | an act changes who runs if and only if it gives up the CPU and somebody waits |
| Sync.FirstTryIff | kernel/sync.h:6-8 | over a whole run every try succeeds at once, whoever makes it, if and only if nobody gives up the CPU while the mutex is held and somebody waits |
| Sync.FirstWaitIff | kernel/sync.h:6-8 | over a whole run every try to take a token succeeds at once, whoever makes it, if and only if in no prefix of the acts the waits catch up with the tokens and posts |
| Sync.ActIsEvent | kernel/sync.c:39-83 | what each act is for the scheduler |
| Sync.GetsCpuInTime | kernel/sync.c:39-83 | a ready task gets the CPU within its cyclic distance, and what holds in every state of the run holds then |
| Sync.GetsMutexInTime | kernel/sync.c:39-44 | in such a run a ready task gets the CPU within its cyclic distance, at most 15 hand-offs, and takes the mutex with its first try |
| Sync.GetsTokenInTime | kernel/sync.c:79-83 | in a run whose waits never catch up a ready task gets the CPU within its cyclic distance and a token with its first try |
| Sync.PrepareReaches | kernel/sync.c:39-44 | a spawn and a lock after boot lead to the state where starvation begins |
| Sync.StarvationReachable | kernel/sync.h:6-8 | from boot, one task can fail any number of times although the mutex is released, or a token posted, each time |
| Sync.RetryLoopCanStarve | kernel/sync.h:6-8 | two round-robin tasks can keep one from the mutex for any number of rounds: it tries in each and never gets in |
| Sync.WaitLoopCanStarve | kernel/sync.h:6-8 | any number of tokens are posted, a waiting task tries as often and never gets one |
| Bitmaps.LowestRun | boot/aarch64/pmm.c:65-68 | the lowest run of the length, or there is none |
| Pmm.SetEffect | boot/aarch64/pmm.c:21 | setting a bit changes that bit only |
| Pmm.ClearEffect | boot/aarch64/pmm.c:22 | clearing a bit changes that bit only |
| Pmm.UpdateEncodes | boot/aarch64/pmm.c:20-22 | the byte updates are the updates of one frame |
| Pmm.FrameOfPhys | boot/aarch64/pmm.c:11-12 | addresses and frames correspond, and no frame has address 0 |
| Pmm.FreedRun | boot/aarch64/pmm.c:87-91 | freeing a run page by page clears exactly the run |
| Pmm.Allocator.constructor | boot/aarch64/pmm.c:24-45 | exactly the frames after the reserved zone are free |
| Pmm.Allocator.AllocPage | boot/aarch64/pmm.c:47-59 | the lowest free frame, or failure if and only if none is free |
| Pmm.Allocator.RunFree | boot/aarch64/pmm.c:66-68 | true if and only if the run is free |
| Pmm.Allocator.AllocPages | boot/aarch64/pmm.c:61-76 | the lowest free run, or failure if and only if none of that length exists |
| Pmm.Allocator.MarkUsed | boot/aarch64/pmm.c:70-71 | marks exactly the run and keeps the count |
| Pmm.Allocator.FreePage | boot/aarch64/pmm.c:78-85 | frees a used frame of RAM and ignores anything else |
| Pmm.Allocator.FreePages | boot/aarch64/pmm.c:87-91 | frees page by page |
| Pmm.Allocator.AllocThenFree | boot/aarch64/pmm.c:61-91 | freeing an allocation restores the exact bitmap and count |
| Pmm.NoRun | boot/aarch64/pmm.c:63 | too few free frames means no run: the early test is sound |
| Pmm.NeverOverlap | boot/aarch64/pmm.c:61-91 | live allocations never overlap, over every run |
| Pmm.Caller.Do | boot/aarch64/pmm.c:61-91 | one allocation or free through the allocator is one step of the ledger |
| Pmm.Caller.Run | boot/aarch64/pmm.c:61-91 | any sequence of calls keeps the blocks held disjoint and the allocator where the calls' contracts put it |
| FrameAllocator.SetEffect | memory/src/frame_alloc.rs:120 | setting a bit of a word changes that bit only |
| FrameAllocator.ClearEffect | memory/src/frame_alloc.rs:143 | clearing a bit of a word changes that bit only |
| FrameAllocator.MaskTest | memory/src/frame_alloc.rs:276 | the mask test reads the bit |
| FrameAllocator.TrailingZeros | memory/src/frame_alloc.rs:153 | the lowest set bit of a nonzero word |
| FrameAllocator.PopOk | memory/src/frame_alloc.rs:136-146 | the popped frame is free in the bitmap, and the rest of the stack stays distinct and free |
| FrameAllocator.PushOk | memory/src/frame_alloc.rs:229-238 | pushing a frame just freed keeps the stack distinct and free |
| FrameAllocator.Frames.constructor | memory/src/frame_alloc.rs:70-80 | a valid allocator without frames |
| FrameAllocator.Frames.Init | memory/src/frame_alloc.rs:90-131 | exactly the frames whose address is not below the reserved end are free, never frame 0, and the stack holds the lowest of them; fails if and only if the memory is too large |
| FrameAllocator.Frames.AllocFrame | memory/src/frame_alloc.rs:134-165 | a free frame, fails if and only if no frame is free, including after the stack has overflowed |
| FrameAllocator.Frames.ScanForFrame | memory/src/frame_alloc.rs:149-164 | the scan finds the lowest free frame |
| FrameAllocator.Frames.IsFree | memory/src/frame_alloc.rs:267-277 | true if and only if the frame exists and is free |
| FrameAllocator.Frames.FreeFrame | memory/src/frame_alloc.rs:217-242 | frees an allocated frame; reports a double free and a frame out of bounds |
| FrameAllocator.Frames.FreeFrames | memory/src/frame_alloc.rs:245-254 | frees up to the first frame that cannot be freed |
| FrameAllocator.Frames.FreeThenAlloc | memory/src/frame_alloc.rs:295-304 | a freed frame is allocated next when the stack has room |
| PageTables.SamePath | boot/aarch64/vmm.c:138-140 | two addresses take the same path if and only if they are in the same 2 MB block |
| PageTables.TableDescRoundTrip | boot/aarch64/vmm.c:150-156 | a table descriptor leads back to its table |
| PageTables.BlockDescMeaning | boot/aarch64/vmm.c:168 | a block descriptor sends an address to the block plus its offset and carries the attributes |
| PageTables.BlockMappingMeans | boot/aarch64/vmm.c:168 | for a 48-bit physical address: the block plus the offset, valid, and every attribute bit asked for and no other |
| PageTables.PermissionMisplaced | boot/aarch64/memory.h:53-56 | a permission value opens a mapping to users if and only if its upper bit is set, and never makes it read-only |
| PageTables.PresetsMean | boot/aarch64/vmm.h:62-72 | what the presets tell the hardware: normal inner shareable memory, executable as named, writable, open to users if and only if meant read-only |
| PageTables.LinkKeepsForest | boot/aarch64/vmm.c:150-166 | linking a fresh table keeps every table at one place of one tree |
| PageTables.LinkKeepsTranslation | boot/aarch64/vmm.c:150-166 | linking a fresh table changes no translation of any space |
| PageTables.LeafWriteElsewhere | boot/aarch64/vmm.c:168 | writing one last-level entry changes no translation on another path |
| PageTables.CopyRootTranslation | boot/aarch64/vmm.c:80-83 | copying the kernel's top level makes the new space translate like the kernel and changes nothing else |
| PageTables.FinalWrite | boot/aarch64/vmm.c:168 | the last write maps exactly the block in exactly the space |
| PageTables.SharedFrame | boot/aarch64/vmm.c:80-83 | slot 0 of every space goes through the kernel's two lower tables, and nothing else does |
| PageTables.SharedWrite | boot/aarch64/vmm.c:168 | a block written into the kernel's last-level table shows in every space, at every address of slot 0 that leads there |
| PageTables.SharedLink | boot/aarch64/vmm.c:159-168 | a table linked into the kernel's middle level shows in every space and ends the kernel's sole ownership |
| PageTables.Mmu.constructor | boot/aarch64/vmm.c:23-45 | no address space yet |
| PageTables.Mmu.EnsureTable | boot/aarch64/vmm.c:47-58 | an existing or fresh table, no translation changed; fails if and only if there is none and no page or tracking slot is left |
| PageTables.Mmu.CreateSpace | boot/aarch64/vmm.c:60-86 | a new space that translates like the kernel and tracks its one page, or failure exactly when memory is missing |
| PageTables.Mmu.EnsurePath | boot/aarch64/vmm.c:150-166 | the path to the block exists in this space's own tables, no translation changed |
| PageTables.Mmu.MapBlock | boot/aarch64/vmm.c:135-172 | succeeds if and only if the request is well formed, two tables may be tracked and pages for the missing tables exist; in the user window exactly that 2 MB of that space gets the new place and attributes, in slot 0 exactly the addresses of all spaces that share the table; failure changes nothing; every page taken is tracked |
| PageTables.Mmu.MapPrivate | boot/aarch64/vmm.c:150-171 | the steps in the user window |
| PageTables.Mmu.MapShared | boot/aarch64/vmm.c:150-171 | the steps in slot 0, where the first table is the kernel's |
| PageTables.Mmu.LinkShared | boot/aarch64/vmm.c:159-171 | the table that slot 0 adds shows in every space and is tracked |
| KernelMap.IdentityExactly | boot/aarch64/vmm.c:181-204 | the kernel map is the identity if and only if the address is in RAM or a device block |
| KernelMap.SharedTableAliases | boot/aarch64/vmm.c:174-179 | sharing one table makes every RAM address visible 1 GB lower as well |
| KernelMap.KernelTables.MapKernelBlock | boot/aarch64/vmm.c:174-179 | links the chain and writes one entry, nothing else |
| KernelMap.KernelTables.MapDevices | boot/aarch64/vmm.c:195-199 | the three device blocks are in place |
| KernelMap.KernelTables.MapRam | boot/aarch64/vmm.c:201-203 | all 64 RAM blocks are in place and the devices stay |
| KernelMap.KernelTables.Init | boot/aarch64/vmm.c:181-204 | leaves exactly the kernel map |
| KernelMap.KernelTables.GetPhys | boot/aarch64/vmm.c:248-272 | the walk returns the address the kernel map gives, 0 where there is none |
| KernelMap.KernelTranslation | boot/aarch64/vmm.c:248-272 | that is the hardware's translation wherever one exists, with the attributes of RAM or of devices |
| KernelMap.KernelAttributes | boot/aarch64/vmm.c:187-203 | RAM is normal inner shareable memory, the rest is device memory; all of it is writable for the kernel and closed to users |
| KernelMap.Boot | boot/aarch64/vmm.c:60-204 | the kernel map is a sound base for address spaces |
| FixedPoint.MulBound | kernel/fp.h:12-14 | a product with a factor of at most k units grows a value at most k-fold, rounding included |
| FixedPoint.FractionInUnit | kernel/fp.h:16-19 | a true fraction stays inside one unit and its cast loses nothing |
| FixedPoint.FractionRounds | kernel/fp.h:16-19 | it is the largest Q16.16 value that does not exceed the fraction |
| FixedPoint.SoftsignDenominator | kernel/fp.h:21-26 | the denominator fits 32 bits exactly for these arguments |
| FixedPoint.SoftsignBound | kernel/fp.h:21-26 | strictly inside one unit, odd, sign-preserving |
| FixedPoint.SoftsignMonotone | kernel/fp.h:21-26 | never reverses an order |
| FixedPoint.ClampNearest | kernel/fp.h:28-32 | the one value inside the limits that is nearest |
| FixedPoint.AbsSat | kernel/fp.h:34-38 | the magnitude except for the one value whose negation does not fit |
| Network.AffineBound | kernel/ai_core.c:48-53 | every partial sum is bounded by the bias and the weights' magnitudes |
| Network.DefinedWithin | kernel/ai_core.c:48-53 | inputs within k units are computed without overflow when the weights are bounded for k |
| Network.Activation | kernel/fp.h:21-26 | every activation is strictly inside one unit |
| Network.WeightedSum | kernel/ai_core.c:48-53 | the inner loop computes the sum for every input whose products and partial sums fit 32 bits |
| Network.HiddenLayer | kernel/ai_core.c:48-53 | the hidden layer for every input that stays within 32 bits |
| AiCore.Perceive | kernel/ai_core.c:38-42 | the fractions of heap and of pages in use, rounded down, and an input within two units; -1.0 when the counter is 0 |
| AiCore.Fits | kernel/ai_core.c:13-36 | the shipped weights leave room for every input within 10922 units |
| AiCore.FitsTight | kernel/ai_core.c:13-36 | one unit more can overflow |
| AiCore.Decide | kernel/ai_core.c:44-63 | the first action with the largest clamped score, for every input that stays within 32 bits |
| AiCore.NeverBoosts | kernel/ai_core.c:44-63 | with the timer input at rest the network never chooses BOOST, for any memory pressure |
| AiCore.ActInRange | kernel/ai_core.c:65-89 | the rate stays in [20, 200] and in its level's band, and a step of 50 needs level 3 |
| AiCore.ActExact | kernel/ai_core.c:65-89 | at which rates each action takes effect, and by how much, level by level |
| AiCore.ActDirection | kernel/ai_core.c:65-89 | BOOST only raises and REST only lowers the rate, other actions leave it, and each takes back what the other did inside the band |
| CmtCore.CmtPerceive | kernel/cmt_core.c:43-64 | the clamped inputs are in their ranges, and the body input is -1.0 when the counter is 0 |
| CmtCore.InputsMean | kernel/cmt_core.c:43-64 | each input is the fraction it is named for, rounded as the source rounds it, and all are within two units |
| CmtCore.DefinedIff | kernel/cmt_core.c:43-78 | with sane sensors an inference stays within 32 bits if and only if the ratio of the two counters is at most 1073709055 in magnitude |
| CmtCore.SelfDecides | kernel/cmt_core.c:72-78 | with the other inputs within two units the forward pass stays within 32 bits if and only if the self input does so |
| CmtCore.SaneDefined | kernel/cmt_core.c:43-78 | counters that do not wrap when added always meet that condition |
| CmtCore.WrappedCountersOverflow | kernel/cmt_core.c:58-59 | with 16384 inferences and 0xFFFFC001 errors no inference stays within 32 bits, whatever the sensors say |
| CmtCore.CmtFits | kernel/cmt_core.c:16-41 | the shipped weights leave room for every input within 10922 units |
| CmtCore.Fire | kernel/cmt_core.c:72-78 | activations strictly inside one unit and their summed magnitude, without overflow |
| CmtCore.PickBest | kernel/cmt_core.c:80-85 | the first action with the largest score, without overflow |
| CmtCore.Transform | kernel/cmt_core.c:66-95 | the experience and the action, for every input that stays within 32 bits; energy below one unit |
| CmtCore.LevelMeans | kernel/cmt_core.c:97-102 | level 0 if and only if all activations together are below 12 units in the last place, level 2 if and only if they average at least one half, level 3 never |
| CmtCore.LevelThreeIff | kernel/cmt_core.c:97-102 | level 3 would need an average of one unit and a coherence of one half |
| CmtCore.ExperienceMeans | kernel/cmt_core.c:87-93 | the energy is the average magnitude rounded down, the coherence how often the first neuron's magnitude goes into the sum |
| CmtCore.RestingBodyFires | kernel/cmt_core.c:66-78 | with the body input at rest the fourth neuron always fires |
| CmtEngine.Cmt.constructor | kernel/cmt_api.c:12-49 | level 0, empty history |
| CmtEngine.Cmt.Record | kernel/cmt_core.c:104-112 | keeps the first 32 entries |
| CmtEngine.Cmt.Infer | kernel/cmt_core.c:121-132 | one inference: level 1 or 2, recorded |
| CmtEngine.Cmt.OnTick | kernel/cmt_core.c:114-148 | counts, and every 50th tick infers; the level always matches the last experience and never reaches 3 |
| CmtEngine.Cmt.ForceInference | kernel/cmt_core.c:150-152 | unless disabled, the next tick infers |
| QLearning.MovedBetween | kernel/ai_learn.c:143-148 | each update lands between the old value and its target |
| QLearning.MovedStopsIff | kernel/ai_learn.c:143-148 | an update changes nothing if and only if the target is 0 to 40 units above |
| QLearning.ClampIdleIff | kernel/ai_learn.c:143-154 | the clamp never acts on any table of the hull if and only if the reward is in [-13108, 13148] |
| QLearning.StepInHull | kernel/ai_learn.c:133-154 | every update stays in the hull, and with such a reward is the textbook one |
| QLearning.LearnMeans | kernel/ai_learn.c:133-148 | rounding aside the update is Q-learning with rate 1638/65536 and discount 52428/65536, less than 1.025 units too low, and changes one value |
| QLearning.NeverClamps | kernel/ai_learn.c:122-159 | every run stays in the hull, and with such rewards is the textbook run |
| QLearning.StateMeaning | kernel/ai_learn.c:56-69 | the eighth of the scale the average pressure falls into, pushed by errors |
| QLearning.StateMonotoneIff | kernel/ai_learn.c:56-69 | more pressure gives no lower state, if and only if not six to ten errors and buckets 5 and 6 |
| QLearning.BaseRewardSteps | kernel/ai_learn.c:161-176 | the reward falls by 5 at half, 15 above 80 percent, and 50 more above 95 percent of the heap, and nowhere else |
| QLearning.RewardAntitone | kernel/ai_learn.c:161-176 | up to 1634 errors, more pressure or more errors never raise the reward |
| QLearning.RewardWraps | kernel/ai_learn.c:161-176 | with 1635 errors full memory is rewarded above empty memory |
| QLearning.RewardAntitoneIff | kernel/ai_learn.c:161-176 | the reward falls with pressure and errors up to a number of errors if and only if that is at most 1634 |
| QLearning.RewardInRangeIff | kernel/ai_learn.c:161-176 | all rewards are in range if and only if the error penalty is; up to 651 errors it is |
| Learner.MakePrior | kernel/ai_learn.c:35-51 | the initial table |
| Learner.PriorMeans | kernel/ai_learn.c:35-51 | before learning, sustaining is best everywhere, boosting as good exactly in the two lowest states, resting above zero exactly in the upper half |
| Learner.RingPush | kernel/ai_learn.c:109-118 | the ring keeps the most recent 32 experiences in order |
| Learner.RingHolds | kernel/ai_learn.c:117-131 | every slot in use holds a stored experience |
| Learner.SamplesRotate | kernel/ai_learn.c:125-131 | every ring slot in use is replayed by one of four consecutive updates |
| Learner.ReplayOne | kernel/ai_learn.c:129-154 | one replayed experience is one clamped update, without overflow |
| Learner.MaxNext | kernel/ai_learn.c:135-141 | the largest value of the next state |
| Learner.Agent.constructor | kernel/ai_learn.c:11-54 | the initial table and an empty ring |
| Learner.Agent.TextbookTable | kernel/ai_learn.c:109-159 | in any run the table is in the hull, and the textbook one when all stored rewards are in range |
| Learner.Agent.BestAction | kernel/ai_learn.c:93-107 | the first action of largest value |
| Learner.Agent.ChooseAction | kernel/ai_learn.c:77-91 | explores, or takes the first action of largest value |
| Learner.Agent.Store | kernel/ai_learn.c:109-120 | appends to the stored experiences, overwriting the oldest slot, and adds up the magnitudes of the rewards |
| Learner.Agent.Update | kernel/ai_learn.c:122-159 | replays exactly the sampled experiences in order, or does nothing |
| AiEngine.PercentExactIff | kernel/ai_api.c:86-88 | at most 100, and the true percentage if and only if the product fits 32 bits |
| AiEngine.NetworkAction | kernel/ai_api.c:96-98 | the network's decision on the current sensors, never BOOST |
| AiEngine.Ai.constructor | kernel/ai_api.c:45-65 | 100 Hz, SUSTAIN, nothing learned |
| AiEngine.Ai.Choose | kernel/ai_api.c:90-102 | the learner's action, or the network's when the learner would sustain; BOOST only if learned |
| AiEngine.Ai.Infer | kernel/ai_api.c:80-124 | one inference: the rate follows the action and the level, the decision and the experience are recorded |
| AiEngine.Ai.Remember | kernel/ai_api.c:116-124 | the experience is stored with its reward, and exactly every tenth inference replays its samples |
| AiEngine.Ai.TickCmt | kernel/ai_api.c:78 | the awareness engine counts, and infers when it is due |
| AiEngine.Ai.CountTick | kernel/ai_api.c:80-124 | every 50th tick is an inference, the others only count |
| AiEngine.Ai.OnTick | kernel/ai_api.c:67-147 | every tick that stays within 32 bits counts, drives the awareness engine, and infers every 50th time; the rate moves by at most 25 |
| AiEngine.Ai.TableUnclamped | kernel/ai_api.c:116-124 | up to 651 errors the learned table is the textbook one |
| AiEngine.RoomFits | kernel/ai_api.c:67-81 | a run in which the two counters do not wrap when added stays within 32 bits |
| AiEngine.OverflowReachable | kernel/ai_api.c:34-81 | a run from boot reaches a tick that leaves 32 bits, and no earlier one does |
| AiEngine.HealthyIncrements | kernel/ai_api.c:67-81 | an enabled engine moves its counters at every 50th tick only |
| AiEngine.Ai.Handle | kernel/ai_api.c:67-147 | one event moves the rate by at most 25 and the counters, wraps included, as the counter machine says |
| AiEngine.Ai.Run | kernel/ai_api.c:67-147 | over any events that stay within 32 bits the rate stays in [20, 200], moves by at most 25, and level 3 never occurs |
| Mirror.SoftsignDrift | sdk/py/src/aeos_sdk/ai_core.py:38-40 | the mirror's activation is one lower exactly on inexact negative values |
| Mirror.MirrorDecide | sdk/py/src/aeos_sdk/ai_core.py:106-125 | the mirror's first action with the largest score, for all integers |
| Mirror.PickBest | sdk/py/src/aeos_sdk/ai_core.py:115-123 | its output loop |
| Mirror.OneStep | sdk/py/src/aeos_sdk/ai_core.py:119-120 | what an activation that is one lower does to a product with each shipped weight |
| Mirror.PairLosses | sdk/py/src/aeos_sdk/ai_core.py:106-125 | how much of its lead each score can lose against each other one |
| Mirror.OutputDrift | sdk/py/src/aeos_sdk/ai_core.py:106-125 | no output differs by more than 7 |
| Mirror.DecisionsAgree | sdk/py/src/aeos_sdk/ai_core.py:106-125 | on any integers the decisions agree whenever the winner leads by more than 10 |
| Mirror.PerceivedAgree | sdk/py/src/aeos_sdk/ai_core.py:90-125 | on what the sensors can produce a lead of more than 7 is enough |
| Mirror.RestingAgree | sdk/py/src/aeos_sdk/ai_core.py:90-125 | in the kernel's inferences a lead of more than 6 is enough |
| Mirror.DecisionsDiffer | sdk/py/src/aeos_sdk/ai_core.py:3-5 | on two inputs the kernel rests, by 6 and by 7, and the mirror sustains |
| Mirror.TieIsPerceived | kernel/ai_core.c:38-42 | the sensors give those inputs, the first one during an inference |
| Mirror.LeadSufficesIff | sdk/py/src/aeos_sdk/ai_core.py:3-5 | a lead of more than d makes the mirror decide like the kernel if and only if d is at least 6 in inferences, at least 7 for all perceivable inputs |
| Mirror.ActAgrees | sdk/py/src/aeos_sdk/ai_core.py:128-135 | the rate steps agree if and only if the level is 2 or neither moves |
| Capabilities.RoomMeansSlot | security/src/lib.rs:131-143 | there is a free slot if and only if the count is below the limit |
| Capabilities.ContainsMeans | security/src/capability.rs:87-89 | a set contains another if and only if it has each of its rights |
| Capabilities.RestrictMeans | security/src/capability.rs:92-96 | a restriction keeps exactly the rights in both sets |
| Capabilities.GrantGives | security/src/lib.rs:115-152 | a grant works if and only if the manager runs and its receiver exists and has an empty slot; exactly that capability is added |
| Capabilities.GrantAllows | security/src/lib.rs:115-174 | afterwards the check passes for exactly what it passed before and for what was granted |
| Capabilities.RevokeTakes | security/src/lib.rs:177-202 | a revocation works if and only if its holder has the identifier, and empties exactly one slot with it |
| Capabilities.GrantValid | security/src/lib.rs:115-152 | a grant keeps counts, owners and unique identifiers |
| Capabilities.GrantIds | security/src/capability.rs:69-84 | a new identifier is unique until the counter wraps |
| Capabilities.RevokeValid | security/src/lib.rs:177-202 | a revocation keeps counts, owners and unique identifiers |
| Capabilities.DelegateValid | security/src/lib.rs:205-241 | a delegation keeps counts, owners and unique identifiers |
| Capabilities.DelegateWorksIff | security/src/lib.rs:220-241 | delegating a delegatable capability works if and only if it is the giver's first one |
| Capabilities.DelegateGives | security/src/lib.rs:220-241 | the receiver gets, on the giver's resource, exactly the rights that the giver's first capability and the request share; no other slot changes |
| Capabilities.DelegateAllows | security/src/lib.rs:155-241 | afterwards the check passes for exactly what it passed before and, for the receiver, for what both contain |
| Capabilities.GrantConfined | security/src/capability.rs:92-96 | a restricted copy of a delegatable capability is covered by it |
| Capabilities.DelegateConfined | security/src/lib.rs:205-241 | a delegation adds nothing that was not covered |
| Capabilities.RevokeConfined | security/src/lib.rs:177-202 | a revocation adds nothing |
| Capabilities.EveryRun | security/src/lib.rs:177-241 | over every run, what is held was held or is covered by one delegatable capability of the start |
| Capabilities.RightsNeverGrow | security/src/lib.rs:177-241 | the union of rights on a resource never grows |
| Capabilities.NoGrantNoGain | security/src/lib.rs:228-231 | a resource nobody may delegate never gains a capability |
| Capabilities.After | security/src/lib.rs:177-241 | counts, owners and identifiers stay right over every run |
| Capabilities.GrantThenRevoke | security/src/lib.rs:115-202 | revoking what was just granted restores every table |
| Capabilities.SecurityManager.constructor | security/src/lib.rs:90-97 | empty tables, not initialised |
| Capabilities.SecurityManager.Init | security/src/lib.rs:100-112 | initialised, nobody holds anything more |
| Capabilities.SecurityManager.GrantCap | security/src/lib.rs:115-152 | the grant with all its error cases |
| Capabilities.SecurityManager.HasCapability | security/src/lib.rs:155-174 | true if and only if one capability of that task carries all wanted rights |
| Capabilities.SecurityManager.RevokeCap | security/src/lib.rs:177-202 | the revocation with all its error cases |
| Capabilities.SecurityManager.DelegateCap | security/src/lib.rs:205-241 | the delegation with all its error cases, confined, and the receiver passes the check for everything the giver's capability and the request contain |

## Left out

- Afs.Volume.Write: names longer than 23 characters fail after the data is written; the extent taken for them is lost until the next mount, which the layout allows.
- Afs.Volume.Delete: an extent that finds the free list full is lost until the next mount, as in the source.
- PageTables.Mmu.MapBlock: attributes leave the address bits and the descriptor type alone, as all presets of `vmm.h` do.
- CmtEngine.Cmt.OnTick: for reports on which the forward pass stays within 32 bits; `CmtCore.DefinedIff` says which these are.
- Network.HiddenLayer: a product that the cast of `fp_mul` would cut counts as leaving 32 bits; what such a pass computes is not modelled.
- AiEngine.Ai.OnTick: sensors report no more in use than there is, and the tick stays within 32 bits, which `CmtCore.DefinedIff` makes a condition on the two counters.
- Mirror.DecisionsAgree: 10 is not claimed to be exact on integers that no sensor produces.
- Learner.Agent.ChooseAction: the quality of the pseudo-random numbers.
- Sync.Semaphore.Give: the count stays below the largest 32-bit value, beyond which the source is undefined.
- Sync.EveryRun: tasks pair lock and unlock without nesting; a task that ends inside leaves the mutex to its slot, as in the source.
- SchedulerRuns.After: timer ticks fall between scheduler operations, not inside them; register and address-space switches are a change of `current`.
- SmpQueue.EveryRun: sequentially consistent memory; `ap_job_count` and the wake-up events are not modelled.
- FrameAllocator.Frames.AllocFrame: single frames only; `alloc_frames` with a count above 1 does not take its frames off the free stack.
- Capabilities.After: identifiers are unique until the 64-bit counter wraps; the audit log is not modelled.
- `dtb_find_uart`: a second walker of the same form as `dtb_memory`.
- `as_destroy`, `as_switch`, TLB maintenance; what the memory types mean for the caches.
- SmpProgress.SomebodyGetsIn: which core gets in is up to the schedule; the spinlock is not fair.
- AfsRuns.Session: after a reboot the bump pointer may be lower than booked, so a write may succeed where the reference allows a refusal; `Afs.Volume.Write` is exact for each call.
- Null arguments of the file system calls, `afs_ls`, `afs_file_count`, console output of every component.
- Console reporting, `ai_reset`, re-entrancy of the tick handler and the corruption check of the engines; `ai_debug` only changes the timer, not the policy rate.
- Device drivers, interrupt controller, timer hardware, shell, text interface and all assembly.
- The x86 port, `kernel/proc.c`, `kernel/heap.c`, `kernel/net.c`, `kernel/ramfs.c`, `kernel/ipc.c`, `kernel/device.c`, `kernel/log.c`: small tables, rings or packet plumbing that would add only easy members.
- `scheduler/src`, `memory/src/page_table.rs`, `ipc/src`, `cli/src`, `AuditLog::recent`.

# ViperDOS: models and proofs

This project models six stateful pieces of ViperDOS in Dafny and proves what each of them promises. Table, pool,
ring and screen sizes are parameters; `MAX_PENDING`, `MAX_MSG_SIZE`, the font and the 4096-byte block are the
source's constants. `dafny verify dfyconfig.toml` checks everything.

| piece | files | main results |
|---|---|---|
| Capability table | `Handles`, `CapTable`, `Derivation`, `Revocation`, `CapTableObject`, `CapRuns` | `RevokeReturns`, `Table.Revoke`, `ReachableAcyclic`, `DeriveAcyclic`, `IssuedHandleResolves`, `HandleExactBelowWrap`, `RemoveFrees` |
| ViperFS writer, checker and lookup | `ViperFormat`, `Mkfs*`, `Resolve`, `Fsck*`, `Agreement` | `BuildImage`, `WriterPassesChecker`, `FoundExactly`, `ReadBackExactly`, `ClippedStores`, `NoErrorMeansSoleOwners`, `CheckImage` |
| Block cache | `CacheCore`, `BlockCache`, `CacheRefinement`, `CacheClients`, `CacheLinks`, `CacheObject`, `CacheInterleaved` | `RunRefines`, `HoldReadsMemory`, `SyncWritesMemory`, `StoreNeedsMark`, `VictimIsOldest`, `InterleavedStructure`, `HeldKeepsBlock`, `MarkKept` |
| Channels and capability transfer | `Rings`, `ChannelRing`, `CapTransfer`, `CapDomains`, `CapPopulation`, `CapSystems`, `ChannelObject`, `ChannelLifetime` | `ChannelIsFifo`, `NoAmplification`, `NoDuplication`, `CallsWithin`, `CallsCount`, `CallsConserve`, `FreedWithLastWrapper` |
| Sleep and wake | `SleepTimers`, `SleepProtocol` | `NoLostWakeup`, `SweptWakes`, `SleepLasts`, `EnqueuesOnlyBlocked` |
| Input queue and console | `EventQueue`, `Console`, `ConsoleProofs`, `ConsoleView`, `ConsoleObject` | `DeliversInOrder`, `CursorDoesNotInterfere`, `WindowIsLog`, `LiveThroughout`, `OutputShows`, `BackAndForth` |

How the models are built:

- Code that updates things in place is a class with arrays or fields (`CapTableObject.Table`, `FsckTool.Checker`,
  `MkfsTool.DiskImage`, `CacheObject.Pool`, `ChannelObject.Channel`, `ChannelLifetime.Registry`,
  `SleepTimers.Table`, `ConsoleObject.Frame`, `ConsoleObject.Scrollback`). Each method is proved to take one step of
  a function on values, and the theorems are about those functions and about whole runs of them.
- Code that runs concurrently is a state machine whose steps are the sections between taking and dropping a lock
  (`CacheInterleaved`, `SleepProtocol`), or single loads and stores (`EventQueue`).
- Recursion that may not end is a function of the depth it may go to (`Revocation.RevokeIn`); the theorems say when
  some depth suffices and what is then computed.
- Device reads may fail and then leave anything in the buffer; clocks, host files and the glyph table are
  parameters.

Where the code and its comments differ, the code is followed:

- `kernel/cap/table.cpp:155-179`: `remove` compares no generation, although the table is documented as detecting
  stale handles (`kernel/cap/table.cpp:20-22`). With a handle it once issued, `remove` frees the capability that now
  lives in the slot, whoever put it there (`RemoveFrees`); a stale handle is rejected exactly when the slot was not
  freed since or holds nothing (`RemoveRejectsStale`); `StaleRemoval` is a run in which another capability is freed.
- `kernel/cap/table.cpp:155-265`: `remove` leaves derived entries in place. Every derived entry keeps a live parent
  exactly while only slots without live children are removed (`RemoveForest`). Parent links stay acyclic under every
  removal, and a derive closes a cycle exactly when its source descends from an orphan of the slot it fills
  (`DeriveAcyclic`, `ReachableAcyclic`). `revoke` returns exactly when its slot is on no cycle (`RevokeReturns`), and
  `RemovedParentCycle` is a run that ends with a handle on which it never does.
- `tools/mkfs.viperfs.cpp:266-269`: finishing an image zeroes its last byte. Stored data survives that exactly when
  the last block was not used or its last byte was zero already (`DataSurvives`). The image then stores the same tree
  less that byte (`ClippedStores`): the end of a file, or of the last name of a full directory. The checker reports no
  error either way (`WriterPassesChecker`). `LosesLastByte` and `LosesName` are arguments for which data and a name
  are lost.
- `tools/mkfs.viperfs.cpp:637-639`: of a file with more than 12 + 512 blocks only the first 524 are stored, and
  the file reads back whole exactly when it has no more than that and keeps its last byte (`ReadBackExactly`);
  `LosesChunks` builds one.
- `tools/mkfs.viperfs.cpp:404-451`: no name is looked up before it is added, and a lookup takes the first entry of a
  name. Every destination is found again exactly when no file's destination is the path of another argument or a
  directory on the way to it, no directory is spelt in two ways (`FoundExactly`), and no name reaches the last byte
  (`FoundExactlyLess`). `SecondHidden`, `DoubledSlash` and `LosesName` are arguments that break each part; only doubled
  slashes break the second (`PlainNotRespelt`).
- `tools/mkfs.viperfs.cpp:865-869`: a file that does not fit into the root directory is ignored; its inode stays
  allocated, and the checker then warns, and only then (`BuiltClean`).
- `kernel/fs/cache.cpp:417-441`, `:617-637`, `:644-667`: blocks are changed in place, and only marked blocks are
  written back. A store is seen at once, marked or not; a flush brings it to the device, and it is still there after an
  eviction or an invalidation, exactly when the block is marked or the store changed nothing (`StoreNeedsMark`,
  `StoreEvicted`). `StoreLost` is a run that loses one.
- `kernel/fs/cache.cpp:628-633`: `sync` takes the mark off after it wrote the block without the lock. A mark on a held
  block stays exactly until a `sync` that was writing the block comes back (`HeldStep`, `MarkKept`), also when it was
  set during the write (`MarkLost`).
- `kernel/console/gcon.cpp:910-911`: output is said to scroll to the bottom but only resets the offset. The end of the
  log is on the screen afterwards exactly when it was everywhere but in the cells written and the row scrolled away
  (`OutputShows`); `StaleAfterOutput` is a call after which it is not.
- `kernel/console/gcon.cpp:398-430`, `:482-529`, `:1028-1038`: erasing, clearing and the line that scrolls in change
  pixels in the current background and not the buffer. The screen keeps showing the end of the log exactly when they
  paint what the buffer would show there (`StepKeeps`, `LiveThroughout`), and paging back and forth restores the screen
  exactly when it showed the end of the log (`BackAndForth`). `ErasedTextReturns` pages erased text back in.
- `tools/fsck.viperfs.cpp:98-112`: the bit tests take the bitmap's bytes.
- `kernel/fs/cache.hpp:42-43` says there is no locking; the code locks and drops the lock around device access,
  and that is what `CacheInterleaved` models.
- `kernel/include/constants.hpp:361-365` gives a font scale of 3/2; the console uses the 5/4 of
  `kernel/console/font.hpp:32-33`, so a cell is 10 by 20 pixels.

Client rules the theorems rely on:

- Capability table: 1 to 0xFFFFFF slots, and inserted kinds are not `Invalid`.
- Cache: a client releases only what it holds, once per get, and changes a block's contents only through a hold that
  was not invalidated since, marking the block unless a hold on it has marked it (`CacheClients.Legal`).
- mkfs: 1 <= size < 2^31 megabytes; names of at most 255 bytes, and not `.` or `..`.
- Channels: callers pass at least as many bytes as they say; fewer than 2^32 - 1 channels are ever created.
- Console: at least one row and column fit, and there are no more rows than scrollback lines; about the live view,
  there are as many rows as fit, as `init` computes them.

## Model

| member | source | states |
|---|---|---|
| Handles.HandleRoundTrip | kernel/cap/handle.hpp:50-73 | index and generation survive encoding, and no slot of a table of legal size encodes to the invalid handle |
| Handles.HandleDecodes | kernel/cap/handle.hpp:50-73 | a handle is its index and generation: decoding and encoding again gives it back |
| Handles.WithinTransitive | kernel/cap/rights.hpp:80-107 | the subset order on rights masks is transitive, which is what makes repeated derivation and masking safe |
| CapTable.FreeListIsWalk | kernel/cap/table.cpp:27-56 | a list that satisfies the free-list conditions is the very walk through the object fields from the free head, so the allocator has one free list |
| CapTable.EmptyWf | kernel/cap/table.cpp:27-56 | a freshly initialised table is well formed: its free list visits every slot once |
| CapTable.FillPops | kernel/cap/table.cpp:70-94 | filling a slot takes the first slot of the free list and leaves the rest of the list in order |
| CapTable.FillWf | kernel/cap/table.cpp:70-94 | filling keeps the table well formed, never reuses a live slot, and fails exactly when the table is full |
| CapTable.DeriveWf | kernel/cap/table.cpp:182-222 | deriving keeps the table well formed |
| CapTable.ReleaseWf | kernel/cap/table.cpp:169-179 | freeing a live slot keeps the table well formed and puts that slot at the front of the free list |
| CapTable.RemoveWf | kernel/cap/table.cpp:155-179 | remove keeps the table well formed for every handle, valid or not |
| CapTable.CountIsLive | kernel/cap/table.cpp:70-94 | in a well-formed table the counter is the number of live entries |
| Derivation.OffCycleHasLevels | kernel/cap/table.cpp:225-265 | a live slot is on no cycle of parent links exactly when what descends from it can be given levels that grow along the links |
| Derivation.RemoveAcyclic | kernel/cap/table.cpp:155-179 | no removal closes a cycle, whatever derives from the removed capability |
| Derivation.FillCycle | kernel/cap/table.cpp:199-217 | filling a slot closes a cycle through it exactly when the new parent already descends from an orphan of that slot |
| Derivation.DeriveAcyclic | kernel/cap/table.cpp:182-222 | a successful derive leaves parent links acyclic if and only if they were and its source descends from no orphan of the slot it fills |
| Derivation.InsertAcyclic | kernel/cap/table.cpp:70-94 | an inserted capability closes no cycle, whatever orphans its slot has |
| Derivation.ForestAcyclic | kernel/cap/table.cpp:182-222 | a table in which every derived capability has its parent has no cycles |
| Derivation.DeriveForest | kernel/cap/table.cpp:182-222 | deriving keeps a forest a forest: every derived capability has a live parent of lower rank |
| Derivation.InsertForest | kernel/cap/table.cpp:70-94 | inserting keeps a forest a forest |
| Derivation.RemoveForest | kernel/cap/table.cpp:155-179 | remove leaves every derived capability its parent if and only if the removed slot has no live child |
| CapTableObject.Table.constructor | kernel/cap/table.cpp:27-56 | initialisation threads the free list through the object fields of all slots |
| CapTableObject.Table.Insert | kernel/cap/table.cpp:70-94 | takes the step of the value model, keeps the table well formed, and returns the invalid handle exactly when it is full |
| CapTableObject.Table.InsertBounded | kernel/cap/table.cpp:97-101 | inserts with rights outside the bounding set dropped |
| CapTableObject.Table.Lookup | kernel/cap/table.cpp:104-127 | finds an entry exactly when the handle resolves: slot in range, live, same generation |
| CapTableObject.Table.Get | kernel/cap/table.cpp:141-152 | succeeds exactly when the handle resolves to that kind with all required rights |
| CapTableObject.Table.Remove | kernel/cap/table.cpp:155-179 | takes the step of the value model whatever the handle, and keeps the table well formed |
| CapTableObject.Table.Derive | kernel/cap/table.cpp:182-222 | takes the step of the value model, keeps the table well formed, and keeps a forest a forest |
| CapTableObject.Table.RevokeUnlocked | kernel/cap/table.cpp:225-265 | wherever the recursion ends, on any table, the method over the mutating array leaves the table and the count the recursion gives |
| CapTableObject.Table.RevokeChildren | kernel/cap/table.cpp:241-249 | the same for the loop that revokes each slot found to be a child as it is reached |
| CapTableObject.Table.Revoke | kernel/cap/table.cpp:268-271 | unless the handle names a slot on a cycle, frees exactly what descends from a resolving handle, changes no other entry, returns the size of that set and lowers the counter by it; acyclic links and forests stay so |
| Revocation.ClosureAfterKill | kernel/cap/table.cpp:241-249 | killing one child subtree leaves the closures of the other children as they were |
| Revocation.ClosureIsChildren | kernel/cap/table.cpp:225-265 | what descends from a slot is the slot and what descends from its children |
| Revocation.LevelledRevokes | kernel/cap/table.cpp:225-265 | where descendants have levels the recursion ends within as many calls, having freed exactly the descendants, each once |
| Revocation.KnotRevoke | kernel/cap/table.cpp:225-265 | a call on a slot of a cycle does not end at any depth, and no other call frees a slot of one |
| Revocation.RevokeReturns | kernel/cap/table.cpp:225-271 | revoke returns if and only if its handle does not resolve to a slot on a cycle of parent links, and at whatever depth it returns it has freed exactly what descends from it and counted it |
| Revocation.RevokeAcyclic | kernel/cap/table.cpp:225-265 | a revocation closes no cycle |
| Revocation.RevokeForest | kernel/cap/table.cpp:225-265 | a revoked table is well formed and still a forest |
| CapRuns.ReachableWf | kernel/cap/table.cpp:27-179 | in every reachable table the free list visits each unused slot exactly once and has capacity minus count entries |
| CapRuns.ReachableForest | kernel/cap/table.cpp:182-271 | if remove is applied only to slots without live children, every derived capability has its parent, of lower rank, in every reachable table |
| CapRuns.ReachableAcyclic | kernel/cap/table.cpp:70-271 | over any run, with no rule on removals, parent links stay acyclic if and only if no call derives from a descendant of an orphan of the slot it fills |
| CapRuns.GenerationCountsFrees | kernel/cap/table.cpp:169-179 | over any run a slot generation is its old value plus the number of times it was freed, modulo 256 |
| CapRuns.IssuedHandleResolves | kernel/cap/handle.hpp:50-73 | an issued handle resolves later if and only if its slot is live and was freed a multiple of 256 times since |
| CapRuns.HandleExactBelowWrap | kernel/cap/table.cpp:104-121 | below 256 reuses a handle resolves exactly while its own capability was not freed, and to that very capability |
| CapRuns.Occupant | kernel/cap/table.cpp:70-222 | in every run a live slot holds the capability of some earlier call, not freed since |
| CapRuns.OccupantKept | kernel/cap/table.cpp:70-222 | and the entry there is the very one that call put in |
| CapRuns.RemoveFrees | kernel/cap/table.cpp:155-179 | remove by a handle issued by call k changes nothing if and only if its slot is not live; otherwise it frees that slot alone: the capability of call k if and only if the slot was not freed since, else that of a later call |
| CapRuns.RemoveRejectsStale | kernel/cap/table.cpp:155-179 | remove frees no other call's capability if and only if the slot was not freed since the handle was issued or is not live |
| CapRuns.StaleRemoval | kernel/cap/table.cpp:155-179 | a run insert, remove, insert, remove in which the last, by the first handle, which no lookup accepts, frees the second capability |
| CapRuns.RemovedParentCycle | kernel/cap/table.cpp:155-265 | a run of four calls makes two slots each other's parent, and revoke on the last handle then ends at no depth |
| ViperFormat.WordsPack | tools/fsck.viperfs.cpp:123-131 | a block of 512 little-endian 64-bit words reads back as written |
| ViperFormat.SetBitAt | tools/mkfs.viperfs.cpp:167-169 | setting a bit of the bitmap sets that bit and no other |
| ViperFormat.InodeRoundTrip | tools/mkfs.viperfs.cpp:253-264 | an inode reads back from its 32 words as written |
| ViperFormat.InodeBlockAt | tools/mkfs.viperfs.cpp:259-264 | each of the 16 inodes of a table block reads back as written |
| ViperFormat.SuperRoundTrip | tools/mkfs.viperfs.cpp:874-889 | the superblock reads back as written, field by field |
| ViperFormat.RecWritten | tools/mkfs.viperfs.cpp:357-376 | a directory record reads back from the bytes it was written to |
| Mkfs.NewDirTiles | tools/mkfs.viperfs.cpp:357-376 | a new directory block holds the records `.` and `..` and they tile its 4096 bytes |
| Mkfs.SplitTiles | tools/mkfs.viperfs.cpp:421-443 | splitting the last record leaves two records that tile the same bytes |
| Mkfs.AppendTiles | tools/mkfs.viperfs.cpp:404-451 | appending an entry to a block whose records tile it gives a block whose records tile it, with the decoded list old + [new] |
| MkfsTool.SplitLastRecord | tools/mkfs.viperfs.cpp:411-451 | the scan finds the last record and splits it, or, exactly when its slack is too small, leaves the block unchanged |
| MkfsTool.DiskImage.constructor | tools/mkfs.viperfs.cpp:81-156 | the empty image: block, bitmap and table sizes for the megabytes asked for, reserved blocks marked, nothing else |
| MkfsTool.DiskImage.AllocBlock | tools/mkfs.viperfs.cpp:182-195 | returns the first unmarked block at or after the cursor and marks it, or fails exactly when there is none |
| MkfsTool.DiskImage.CreateRoot | tools/mkfs.viperfs.cpp:554-576 | always succeeds on an empty image, and afterwards the image stores exactly the root directory, its own parent, in inode 2 |
| MkfsTool.DiskImage.AddDirEntry | tools/mkfs.viperfs.cpp:404-451 | succeeds if and only if the entry fits, and then the directory lists old + [new]; otherwise nothing changes |
| MkfsTool.DiskImage.NewDirectory | tools/mkfs.viperfs.cpp:466-487 | succeeds if and only if an inode and a block are left, and then stores one more directory, everything earlier as before |
| MkfsTool.DiskImage.AddDirectory | tools/mkfs.viperfs.cpp:466-495 | the outcome is the plan's: ends exactly without an inode or a block, gives 0 exactly when the parent has no room, and otherwise the directory is listed under that name in that parent, all else as before |
| MkfsTool.DiskImage.EnsureDirectory | tools/mkfs.viperfs.cpp:512-541 | outcome, tree and remembered directories are the plan's; the inode returned is a directory whose names from the root are the components of the path |
| MkfsTool.DiskImage.WriteDirect | tools/mkfs.viperfs.cpp:610-629 | succeeds if and only if the blocks are left, and then the first twelve hold the file's chunks |
| MkfsTool.DiskImage.WriteIndirect | tools/mkfs.viperfs.cpp:631-656 | succeeds if and only if the blocks and the pointer block are left, and then that block points to the remaining chunks, up to 512 |
| MkfsTool.DiskImage.NewFile | tools/mkfs.viperfs.cpp:599-656 | succeeds if and only if an inode and all blocks are left; the chunks are then stored, zero-padded, everything earlier as before |
| MkfsTool.DiskImage.AddFile | tools/mkfs.viperfs.cpp:599-667 | the outcome is the plan's: ends exactly without an inode or blocks, gives 0 exactly when the directory has no room, and otherwise the file with this data is listed under that name in that directory, all else as before |
| MkfsTool.DiskImage.Attach | tools/mkfs.viperfs.cpp:484-494 | listing a new node in its directory completes the plan's step |
| MkfsTool.DiskImage.Finalize | tools/mkfs.viperfs.cpp:253-272 | the image written is the stored blocks under the final superblock, bitmap and inode table, with the last byte zeroed |
| MkfsPaths.BaseName | tools/mkfs.viperfs.cpp:319-339 | a path is its parent, a slash and its last component, and that component has no slash |
| MkfsPaths.SamePath | kernel/fs/vfs/vfs.cpp:169-200 | the components the writer splits a path into from the back are those the kernel meets from the front, for every path |
| MkfsPaths.PlainSpelling | tools/mkfs.viperfs.cpp:296-307 | a path without doubled or outer slashes is determined by its components |
| MkfsImage.AddNodeStores | tools/mkfs.viperfs.cpp:207-225 | storing one more inode in fresh blocks keeps everything stored before |
| MkfsImage.AddKidStores | tools/mkfs.viperfs.cpp:404-451 | rewriting one directory block keeps every other inode's blocks |
| MkfsImage.AddShape | tools/mkfs.viperfs.cpp:466-495 | adding a listed child keeps the tree a tree |
| MkfsImage.AddUnlistedShape | tools/mkfs.viperfs.cpp:659-664 | and so does a node that found no room in its directory |
| MkfsPlan.PutRooted | tools/mkfs.viperfs.cpp:599-667 | a node put into a directory is listed there under its name or not at all, and no earlier path or remembered directory changes |
| MkfsPlan.PathKept | tools/mkfs.viperfs.cpp:404-451 | nothing that is listed ever moves |
| MkfsPlan.EnsureFinds | tools/mkfs.viperfs.cpp:512-541 | a directory path, once ensured, leads from the root to the directory returned, and every remembered path to its directory |
| MkfsPlan.EnterFinds | tools/mkfs.viperfs.cpp:826-870 | one argument leaves its file or directory at the place it asks for, or ends the program, or is a file without room in the root |
| MkfsPlan.PlanFinds | tools/mkfs.viperfs.cpp:826-870 | over any arguments each file or directory is at its place with its data, and an inode is unlisted if and only if some file found no room in the root |
| MkfsPlan.PlanPasses | tools/mkfs.viperfs.cpp:826-870 | the arguments for which a finished plan reports no inode are exactly the root files that are missing or find no room |
| Resolve.LookupStored | kernel/fs/viperfs/viperfs.cpp:674-728 | the kernel's scan of a directory of a finished image returns the first entry the tree lists under that name |
| Resolve.ResolveStored | kernel/fs/vfs/vfs.cpp:139-223 | a path resolves in a finished image as in the tree it stores |
| MkfsNames.FoundIfVisible | kernel/fs/viperfs/viperfs.cpp:674-728 | a listed inode is found under its path if and only if neither it nor a directory on the way stands behind an entry of the same name |
| MkfsNames.ClashHides | tools/mkfs.viperfs.cpp:404-451 | of two arguments whose places clash at most one is found |
| MkfsNames.RespeltHides | tools/mkfs.viperfs.cpp:512-541 | if two arguments spell a directory in two ways, something is not found |
| MkfsNames.HiddenClash | tools/mkfs.viperfs.cpp:404-541 | with each directory spelt one way, whatever is not found is hidden by a file whose place is another argument's or on its way |
| MkfsNames.FoundExactly | tools/mkfs.viperfs.cpp:404-541 | every destination is found if and only if no two places clash and no directory is spelt in two ways |
| MkfsFound.PlanSprings | tools/mkfs.viperfs.cpp:826-870 | over any arguments, everything listed was asked for by one of them: each directory once per spelling, each file once |
| MkfsFound.PlanSprung | tools/mkfs.viperfs.cpp:826-870 | so for every size and every list of arguments, whatever is listed in what the program builds was asked for |
| MkfsFound.PlainNotRespelt | tools/mkfs.viperfs.cpp:296-307 | without doubled slashes no directory is spelt in two ways |
| MkfsImage.Disjoint | tools/mkfs.viperfs.cpp:182-195 | two inodes own disjoint intervals of blocks |
| MkfsFinal.DataSurvives | tools/mkfs.viperfs.cpp:253-272 | the blocks in use read back as stored if and only if the last byte of the image was not in use or zero already |
| MkfsClip.ClipTiles | tools/mkfs.viperfs.cpp:266-269 | with its last byte zero, a directory block still tiles, and its records are the same but for a last name that reached that byte |
| MkfsClip.ClipNodeChanges | tools/mkfs.viperfs.cpp:266-269 | the inode that owns the last block changes if and only if it loses a byte of a name or of data that was not zero |
| MkfsClip.ChunkClip | tools/mkfs.viperfs.cpp:266-269 | of a file only the last stored chunk can change, and only in its last byte |
| MkfsClip.ClippedStores | tools/mkfs.viperfs.cpp:266-269 | an image with its last byte zeroed stores the same tree less that byte, every other inode as before |
| MkfsClip.ClippedShape | tools/mkfs.viperfs.cpp:266-269 | and that tree is a tree of the same shape, with the same inodes listed |
| MkfsClip.SameFinal | tools/mkfs.viperfs.cpp:253-272 | finishing it gives the same image |
| MkfsFinal.FinalIsFinished | tools/mkfs.viperfs.cpp:872-891 | loading any finished image gives back the superblock, bitmap and inodes that were stored, over the tree less its last byte |
| MkfsFinal.WriterPassesChecker | tools/mkfs.viperfs.cpp:253-272 | every stored tree, once finished, whatever its last byte, makes the checker report no error, and no warning either if and only if every inode in use is listed |
| MkfsFinal.KernelFollows | kernel/fs/vfs/vfs.cpp:139-223 | the kernel, loading any finished image, follows components from the root as the stored tree says, less the last byte |
| MkfsFinal.PointerResolves | tools/fsck.viperfs.cpp:137-161 | the checker's pointer lookup finds the block in which the writer put chunk k |
| MkfsFinal.ReadBack | tools/fsck.viperfs.cpp:123-161 | reading block k of a stored file through the checker's lookup yields its k-th 4096-byte chunk, zero-padded, less the last byte of the image |
| MkfsFinal.ChunkReadable | tools/fsck.viperfs.cpp:123-161 | a stored chunk reads back as it was given if and only if it is not the one that lost a byte |
| MkfsFinal.ReadBackExactly | tools/mkfs.viperfs.cpp:631-639 | all chunks of a file can be read back if and only if there are at most 12 + 512 of them and the file does not lose the last byte |
| MkfsLost.SameWalk | kernel/fs/vfs/vfs.cpp:139-223 | if no name reaches the last byte, every walk goes as in the tree that was stored |
| MkfsLost.LostHides | tools/mkfs.viperfs.cpp:266-269 | a lost name hides something that an argument asked for |
| MkfsLost.FoundExactlyLess | tools/mkfs.viperfs.cpp:404-541 | in the finished image every destination is found if and only if no two places clash, no directory is spelt in two ways and no name reaches the last byte |
| MkfsLost.PlanFound | tools/mkfs.viperfs.cpp:826-870 | for every size and every list of arguments, what the program builds is found again under exactly that condition |
| MkfsMain.Process | tools/mkfs.viperfs.cpp:826-870 | one argument of the program has the outcome, the tree and the remembered directories that the plan gives it |
| MkfsMain.EnterAll | tools/mkfs.viperfs.cpp:826-870 | the loop over the arguments finishes if and only if the plan does, in the plan's state |
| MkfsMain.BuildImage | tools/mkfs.viperfs.cpp:798-899 | the whole program finishes if and only if its plan does; then every argument's file or directory is at the place asked for, the checker reports no error and warns if and only if a file found no room in the root, every stored chunk reads back if and only if no file loses the last byte, and the kernel finds every destination if and only if no places clash, no directory is spelt in two ways and no name is lost |
| MkfsMain.BuiltPlaces | tools/mkfs.viperfs.cpp:826-870 | of every image built, each argument is at its place |
| MkfsMain.BuiltClean | tools/mkfs.viperfs.cpp:865-869 | of every image built, no error, and no warning if and only if no file that was read was left out of the root |
| MkfsMain.BuiltReads | tools/fsck.viperfs.cpp:123-161 | of every image built, each stored chunk of each file is read through the inode reported for it if and only if none of them lost the last byte |
| MkfsMain.BuiltFound | kernel/fs/vfs/vfs.cpp:139-223 | in every image built, the kernel's walk reaches every destination under exactly that condition on the arguments |
| MkfsMain.SpotResolves | kernel/fs/vfs/vfs.cpp:139-223 | the place of an argument is what the kernel resolves its path to |
| MkfsWitness.LosesLastByte | tools/mkfs.viperfs.cpp:266-269 | a 1 MB image with one file of 247 full blocks: the program finishes and the last chunk does not read back |
| MkfsWitness.LosesChunks | tools/mkfs.viperfs.cpp:637-639 | a 3 MB image with one file of 525 blocks: the program finishes and not every chunk reads back |
| MkfsCrowd.LosesName | tools/mkfs.viperfs.cpp:266-269 | eighteen arguments for a 1 MB image, none clashing, none respelt: the plan finishes with a directory in the last block whose last name loses its last byte |
| MkfsWitness.SecondHidden | tools/mkfs.viperfs.cpp:404-451 | two files for one name: both get an inode and the name leads to the first |
| MkfsWitness.DoubledSlash | tools/mkfs.viperfs.cpp:512-541 | a path and the same path with a doubled slash: the directory is made twice, with no clash of places |
| Agreement.NodeBlockList | tools/fsck.viperfs.cpp:165-252 | the checker claims for each inode exactly the interval of blocks the writer gave it |
| Agreement.VisitCanon | tools/fsck.viperfs.cpp:115-252 | visiting an inode claims its blocks and reports nothing |
| Agreement.WalkDir | tools/fsck.viperfs.cpp:257-394 | checking a directory of a finished image visits exactly its subtree and reports nothing |
| Agreement.ComputedIsStored | tools/fsck.viperfs.cpp:540-604 | after the walk every computed block is marked on disk, the two bitmaps are equal when every inode is listed, and every block has one owner |
| Agreement.Orphans | tools/fsck.viperfs.cpp:526-536 | the orphans the checker counts are the inodes no directory lists |
| Agreement.FinishedIsClean | tools/fsck.viperfs.cpp:518-604 | the check of a finished image ends with no error, having visited exactly the inodes below the root, and with no warning if and only if every inode in use is listed |
| Fsck.VisitDecreases | tools/fsck.viperfs.cpp:257-275 | each directory visited leaves fewer unvisited inodes, so the recursive check terminates on every image |
| FsckSound.ClaimAllAt | tools/fsck.viperfs.cpp:115-120 | claiming a list of blocks adds the claimant once per occurrence and marks exactly those blocks |
| FsckSound.BlockListInRange | tools/fsck.viperfs.cpp:165-252 | only nonzero blocks inside the image are ever claimed |
| FsckSound.CheckDirSound | tools/fsck.viperfs.cpp:257-394 | the recursive check keeps: every claimed block is nonzero, in range and marked, and without errors every visited inode has claimed all its blocks |
| FsckSound.NoErrorMeansSoleOwners | tools/fsck.viperfs.cpp:518-604 | if the check of any checkable image ends with no error, every block listed by a visited inode is nonzero, in range, marked used on disk, listed once, and listed by no other visited inode |
| FsckTool.Checker.ClaimBlock | tools/fsck.viperfs.cpp:115-120 | records the claimant and marks the block, as the value model does |
| FsckTool.Checker.CheckInodeBlocks | tools/fsck.viperfs.cpp:165-252 | direct, indirect and double indirect pointers are claimed and counted as in the value model |
| FsckTool.Checker.CheckDirectory | tools/fsck.viperfs.cpp:257-394 | the recursive method over the mutable state computes the value model's result and terminates |
| FsckTool.Checker.CheckDirectoryTree | tools/fsck.viperfs.cpp:518-537 | the tree walk and the count of orphans |
| FsckTool.Checker.CheckBlockAllocation | tools/fsck.viperfs.cpp:540-604 | shared blocks, bitmap mismatches and the free count, reported at most ten of a kind |
| FsckTool.CheckImage | tools/fsck.viperfs.cpp:616-692 | the program's error and warning counts are those of the value model, and an image that cannot be opened is an error |
| CacheCore.FindAnyIsLinked | kernel/fs/cache.cpp:142-154 | lookup by number finds the one linked slot with that number, valid or loading, if there is one |
| CacheCore.FindIsValid | kernel/fs/cache.cpp:128-140 | lookup among valid slots is exact |
| CacheCore.ReserveStruct | kernel/fs/cache.cpp:421-433 | taking a victim from its chain and linking it under a new number keeps chains, numbers and the list in order |
| CacheCore.LoadFailedStruct | kernel/fs/cache.cpp:449-458 | giving a reserved slot back unlinks exactly that slot |
| CacheCore.TouchStruct | kernel/lib/lru_list.hpp:69-76 | moving a slot to the front keeps the list a permutation of all slots |
| CacheCore.TouchOrdered | kernel/lib/lru_list.hpp:69-76 | the list stays ordered by time of last touch |
| CacheCore.VictimIsOldest | kernel/fs/cache.cpp:221-231 | a victim is found whenever some slot is neither held nor pinned, and it is the one of those touched longest ago |
| BlockCache.RefillView | kernel/fs/cache.cpp:406-461 | reusing a slot, with write-back of what was there and a read that may fail, changes no block's visible contents |
| BlockCache.ViewIs | kernel/fs/cache.cpp:128-140 | the visible contents of a block are those of the valid slot that holds it, else the device's |
| CacheRefinement.GetRefines | kernel/fs/cache.cpp:384-473 | get changes no block's visible contents even when reads fail and whatever is read ahead; it returns, newly held, exactly the visible contents; it returns nothing if and only if the block is not cached and every slot is held or pinned or the read fails; held and pinned slots keep their block |
| CacheRefinement.GetForWriteRefines | kernel/fs/cache.cpp:476-553 | the same for get_for_write, and the block is marked dirty |
| CacheRefinement.ReadAheadView | kernel/fs/cache.cpp:328-381 | read-ahead changes no visible contents and no held or pinned slot |
| CacheRefinement.ReleaseRefines | kernel/fs/cache.cpp:556-564 | release takes one hold from its slot, stopping at zero, and changes no other slot and no visible contents |
| CacheRefinement.PinRefines | kernel/fs/cache.cpp:728-792 | pin changes no visible contents; on success the block is cached and pinned; it fails exactly when get would; it gives no hold, and held and pinned slots keep their block |
| CacheRefinement.UnpinRefines | kernel/fs/cache.cpp:795-802 | unpin takes the pin off the valid slot of that block and changes no other slot and no visible contents |
| CacheRefinement.InvalidateRefines | kernel/fs/cache.cpp:644-667 | invalidate changes no visible contents and no other slot; the block, held or not, is then on the device and not cached |
| CacheRefinement.SortSorted | kernel/fs/cache.cpp:604-615 | the insertion sort orders the dirty slots by block number and loses none |
| CacheRefinement.SyncRefines | kernel/fs/cache.cpp:582-641 | after sync the device equals the visible contents everywhere, every slot is as before but clean, and the writes issued are the dirty blocks, each once, in strictly ascending order |
| CacheRefinement.StoreRefines | kernel/fs/viperfs/viperfs.cpp:361-373 | a store into a marked block changes that block's visible contents and no other's |
| CacheRefinement.StoreNeedsMark | kernel/fs/cache.cpp:582-667 | after a store into any cached block the cache shows it; a flush brings it to the device, it is shown after an invalidation, and the invariant survives, each if and only if the block is marked dirty or the store is what the device holds |
| CacheRefinement.StoreEvicted | kernel/fs/cache.cpp:417-461 | when the slot is taken for another block, the block shows the store if it was marked, and what the device held if not |
| CacheRefinement.StoreLost | kernel/fs/cache.cpp:384-667 | a run get, store without a mark, release, invalidate, get in which the client reads the old contents |
| CacheClients.StepRefines | kernel/fs/cache.cpp:384-802 | every legal call keeps the invariant and the agreement between slots and the ledger of holds, and only a store through a hold changes visible contents: those of the block that was obtained |
| CacheClients.RunRefines | kernel/fs/cache.cpp:384-802 | in every serialised run of legal calls the cache shows each block as a memory without a cache, which the calls alone determine |
| CacheClients.HoldReadsMemory | kernel/fs/cache.cpp:384-564 | a block obtained and not invalidated keeps its slot, however long it is held, and reads as that memory |
| CacheClients.HoldsApart | kernel/fs/cache.cpp:384-473 | two live holds share a slot if and only if they are on the same block |
| CacheClients.GetReadsMemory | kernel/fs/cache.cpp:384-553 | a block obtained at any time in a run holds the last contents stored in it |
| CacheClients.SyncWritesMemory | kernel/fs/cache.cpp:582-641 | a sync at any time in a run puts exactly that memory on the device |
| CacheRefinement.InitInv | kernel/fs/cache.cpp:78-120 | an initialised cache satisfies the invariant and shows the device |
| CacheLinks.ChainCut | kernel/fs/cache.cpp:179-191 | redirecting the predecessor's pointer, or the head, removes one element of a hash chain |
| CacheLinks.TakeOutCuts | kernel/lib/lru_list.hpp:28-43 | joining the neighbours removes one element of the doubly linked list and keeps head, tail and both directions right |
| CacheLinks.LruPush | kernel/lib/lru_list.hpp:50-62 | inserting at the head keeps head, tail and both directions right |
| CacheObject.Pool.constructor | kernel/fs/cache.cpp:78-120 | all slots invalid, all chains empty, the list in pool order |
| CacheObject.Pool.FindAnySlot | kernel/fs/cache.cpp:142-154 | walking the hash chain gives the value model's lookup |
| CacheObject.Pool.FindSlot | kernel/fs/cache.cpp:128-140 | the same for valid slots |
| CacheObject.Pool.FindVictim | kernel/fs/cache.cpp:221-231 | walking the list from the tail gives the value model's victim |
| CacheObject.Pool.InsertHash | kernel/fs/cache.cpp:172-176 | the pointers represent the chain with the slot in front |
| CacheObject.Pool.RemoveHash | kernel/fs/cache.cpp:179-191 | the pointers represent the chain without the slot, and nothing changes if it was not there |
| CacheObject.Pool.LruRemove | kernel/lib/lru_list.hpp:28-43 | the pointers represent the list without the slot |
| CacheObject.Pool.LruAddHead | kernel/lib/lru_list.hpp:50-62 | the pointers represent the list with the slot in front |
| CacheObject.Pool.TouchSlot | kernel/lib/lru_list.hpp:69-76 | the pointers represent the list with the slot moved to the front, also when it was there already |
| CacheObject.Pool.RefillSlot | kernel/fs/cache.cpp:417-461 | unlink, rename, link, write back and read take the value model's step |
| CacheObject.Pool.ReadAheadFrom | kernel/fs/cache.cpp:328-381 | the read-ahead loop takes the value model's steps, skipping cached blocks and stopping when no slot is free |
| CacheObject.Pool.GetBlock | kernel/fs/cache.cpp:384-473 | get on the pointer structure is get of the value model and keeps the invariant |
| CacheObject.Pool.GetBlockForWrite | kernel/fs/cache.cpp:476-553 | the same for get_for_write |
| CacheObject.Pool.ReleaseBlock | kernel/fs/cache.cpp:556-564 | the same for release |
| CacheObject.Pool.PinBlock | kernel/fs/cache.cpp:728-792 | the same for pin |
| CacheObject.Pool.UnpinBlock | kernel/fs/cache.cpp:795-802 | the same for unpin |
| CacheObject.Pool.InvalidateBlock | kernel/fs/cache.cpp:644-667 | the same for invalidate |
| CacheObject.Pool.InsertKey | kernel/fs/cache.cpp:605-615 | one round of the in-place insertion sort inserts the key after every smaller or equal number |
| CacheObject.Pool.SortOrder | kernel/fs/cache.cpp:604-615 | the in-place sort of the index array is the value model's sort |
| CacheObject.Pool.CollectDirty | kernel/fs/cache.cpp:585-593 | the index array lists exactly the valid dirty slots |
| CacheObject.Pool.SyncAll | kernel/fs/cache.cpp:582-641 | collecting, sorting and writing back is the value model's sync |
| CacheInterleaved.NextSafe | kernel/fs/cache.cpp:328-641 | every step of any caller, between taking and dropping the lock, and every change to a held block without it, keeps the structure and the reference accounts |
| CacheInterleaved.InterleavedStructure | kernel/fs/cache.cpp:328-641 | in every interleaving at most one slot is linked per block number, a linked slot that is not valid has exactly one loader and reference count 1, and each count is the number of holds, loads and writes in progress |
| CacheInterleaved.HeldStep | kernel/fs/cache.cpp:328-641 | whatever step anyone takes, a held block stays in its slot, valid, and a mark on it stays if and only if the step is not the return of a sync that was writing it |
| CacheInterleaved.HeldKeepsBlock | kernel/fs/cache.cpp:384-564 | a block obtained and not yet released keeps its slot and number through any interleaving |
| CacheInterleaved.MarkKept | kernel/fs/cache.cpp:617-637 | in every interleaving a mark on a block that stays held is there until a sync that was writing it returns |
| CacheInterleaved.MarkLost | kernel/fs/cache.cpp:628-633 | a run in which a block is changed and marked while sync writes it, and is unmarked afterwards |
| CacheInterleaved.SoleLoader | kernel/fs/cache.cpp:421-433 | a slot being loaded has no other loader and nobody holds it |
| ChannelRing.PutPending | kernel/ipc/channel.cpp:248-292 | a send appends the message to the queue the ring stands for |
| ChannelRing.TakePending | kernel/ipc/channel.cpp:327-373 | a receive takes the oldest message off that queue |
| ChannelRing.NextOk | kernel/ipc/channel.cpp:198-382 | each of the five calls on the ring is the same call on a bounded queue |
| ChannelRing.ChannelIsFifo | kernel/ipc/channel.cpp:198-635 | in every run of try_send, send, try_recv, recv and set_capacity the messages handed out are a prefix of those accepted, in order, the rest is in the ring, write index = (read index + count) mod size, and count <= capacity <= size |
| CapTransfer.ExtractConserves | kernel/ipc/channel.cpp:260-288 | a send takes exactly the capabilities named by resolving, transferable handles, each once however often named; what the table held is what it still holds plus what travels, as multisets |
| CapTransfer.InstallAdds | kernel/ipc/channel.cpp:341-365 | a receive puts the first capabilities of the message, as many as there are free slots, each once, into the first free slots under the handles returned; nothing else changes and the table grows by exactly those, as multisets |
| CapDomains.SendGood | kernel/ipc/channel.cpp:260-288 | capabilities in flight keep their roots, and a send conserves the multiset of capabilities |
| CapDomains.ReceiveGood | kernel/ipc/channel.cpp:341-365 | each queued capability arrives at most once, in order, masked by the bounding set, under its own root |
| CapDomains.TableStepGood | kernel/cap/table.cpp:70-271 | insert, bounded insert, derive, remove and revoke keep every live capability within its root |
| CapDomains.NoAmplification | kernel/ipc/channel.cpp:222-382 | in every run over any number of tables and channels each live or in-flight capability has its root's object and kind and no right the root lacked, and roots never change |
| CapPopulation.SendOwn | kernel/ipc/channel.cpp:260-288 | a send neither loses nor copies a capability of any roots |
| CapPopulation.ReceiveOwn | kernel/ipc/channel.cpp:341-365 | a receive adds no more capabilities of any roots than the message carried |
| CapPopulation.EventPopulation | kernel/ipc/channel.cpp:222-382 | an event adds a capability of a root only by granting the root or deriving from one that exists |
| CapPopulation.NoDuplication | kernel/ipc/channel.cpp:222-382 | in every run, for any set of roots, their capabilities over all tables and messages are no more than those roots and the derivations made from them |
| CapSystems.Simulates | kernel/ipc/channel.cpp:198-382 | each call on concrete tables and ring buffers is the event its arguments and answer determine, or, if it was refused or moves no message, none |
| CapSystems.RunRepresented | kernel/ipc/channel.cpp:198-382 | the events of any calls are a run of the model, which stands for the tables and rings after every call and has as roots the insertions among them |
| CapSystems.CallsWithin | kernel/ipc/channel.cpp:198-382 | whatever the calls, every live capability of every table and every one queued in a ring has the object and kind of a capability that one of the insertions among the calls brought in, and no right that one lacked |
| CapSystems.DerivationsAre | kernel/cap/table.cpp:182-222 | the derivations of that run are the successful derives among the calls |
| CapSystems.CallsCount | kernel/ipc/channel.cpp:198-382 | whatever the calls, the capabilities for one object and kind in all tables and rings are no more than the insertions and successful derives of such capabilities among the calls |
| CapSystems.CallsConserve | kernel/ipc/channel.cpp:198-382 | in the run that the calls are, with the insertions among the calls as its roots, every live or queued capability is within its root, and no root's capabilities outnumber the derivations from it by more than one |
| ChannelObject.Channel.constructor | kernel/ipc/channel.cpp:106-120 | an open, empty channel; an unusable capacity becomes the default |
| ChannelObject.Channel.TakeHandles | kernel/ipc/channel.cpp:260-288 | the loop over the handles takes the value model's step on the sender's table |
| ChannelObject.Channel.TrySend | kernel/ipc/channel.cpp:222-301 | answers by the first failing check and then changes nothing; otherwise the message with the extracted capabilities is queued last and the sender's table has lost exactly those: the step that the runs of `CapSystems` take |
| ChannelObject.Channel.SendOnce | kernel/ipc/channel.cpp:520-566 | one round of the blocking send: no handles, no look at the receiving end |
| ChannelObject.Channel.GiveHandles | kernel/ipc/channel.cpp:341-365 | the loop over the capabilities takes the value model's step on the receiver's table |
| ChannelObject.Channel.TryRecv | kernel/ipc/channel.cpp:314-382 | the oldest message leaves the queue, its bytes are copied up to the buffer size, and its capabilities enter the receiver's table under the handles returned: the step that the runs of `CapSystems` take |
| ChannelObject.Channel.RecvOnce | kernel/ipc/channel.cpp:573-635 | one round of the blocking receive, which drops capabilities |
| ChannelObject.Channel.SetCapacity | kernel/ipc/channel.cpp:198-216 | refuses zero, too large and less than the queued count; otherwise the queue is unchanged |
| ChannelLifetime.CreateInv | kernel/ipc/channel.cpp:172-186 | a new channel has a fresh nonzero identifier and both counts match its one wrapper |
| ChannelLifetime.WrapInv | kernel/kobj/channel.cpp:50-68 | wrapping counts exactly the end the wrapper owns |
| ChannelLifetime.GiveUpInv | kernel/kobj/channel.cpp:71-81 | each step of the destructor keeps counts equal to owners and open channels owned |
| ChannelLifetime.FreedWithLastWrapper | kernel/ipc/channel.cpp:748-782 | a channel is freed by a step if and only if no wrapper owns an end of it after that step |
| ChannelLifetime.RunInv | kernel/kobj/channel.cpp:22-81 | in every run open channels have distinct nonzero identifiers, each count is the number of wrappers owning that end, and a channel is open exactly while some end of it is owned |
| ChannelLifetime.Registry.constructor | kernel/ipc/channel.cpp:42-61 | the empty registry, the start state of every run |
| ChannelLifetime.Registry.CreateChannel | kernel/ipc/channel.cpp:172-186 | takes the first free slot, or nothing when there is none |
| ChannelLifetime.Registry.AddEndpointRef | kernel/ipc/channel.cpp:730-745 | counts one end of the open channel with that identifier, or nothing |
| ChannelLifetime.Registry.CloseEndpointById | kernel/ipc/channel.cpp:748-782 | gives up one count and frees the channel when both counts are zero |
| SleepTimers.Table.constructor | kernel/ipc/poll.cpp:80-99 | whatever the memory held, no timer runs and the first identifier is 1 |
| SleepTimers.Table.Create | kernel/ipc/poll.cpp:136-169 | takes the first free slot under the next identifier, or fails exactly when all run |
| SleepTimers.Table.FindTimer | kernel/ipc/poll.cpp:112-119 | finds the running timer with that identifier |
| SleepTimers.Table.Cancel | kernel/ipc/poll.cpp:186-213 | stops the timer and hands over its waiter, or changes nothing |
| SleepTimers.Table.CheckTimers | kernel/ipc/poll.cpp:372-383 | stops exactly the expired timers that have a waiter and collects those waiters in table order |
| SleepTimers.Table.ClearWaiter | kernel/ipc/poll.cpp:497-507 | stops exactly the running timers that wait on the task |
| SleepProtocol.NextInv | kernel/ipc/poll.cpp:136-518 | every step of sleepers, interrupt, cancellers, notifiers and teardown keeps the protocol's invariant |
| SleepProtocol.NoLostWakeup | kernel/ipc/poll.cpp:240-265 | in every interleaving a task blocked in sleep_ms is the waiter of its running timer, or was picked by a party that will wake it, or is being torn down; and no task is queued twice |
| SleepProtocol.SleepsLongEnough | kernel/ipc/poll.cpp:216-271 | sleep_ms returns VOK only at or after its expiry unless another party cancelled or cleared its timer, and its timer slot is then free |
| SleepProtocol.SleepLasts | kernel/ipc/poll.cpp:216-271 | a call of sleep_ms(ms) that returns VOK has lasted at least ms milliseconds, or some act since it began cancelled its timer or tore its task down |
| SleepProtocol.CutOnlyByOthers | kernel/ipc/poll.cpp:186-213 | a sleep is cut short only by an act of another party: a cancellation of its own timer, or clearing the task while a timer waits on it |
| SleepProtocol.EnqueuesOnlyBlocked | kernel/ipc/poll.cpp:385-393 | a task joins the run queue only on a transition from blocked to ready |
| SleepProtocol.SweepPicksExpired | kernel/ipc/poll.cpp:359-394 | a timer pass that reads the clock at or after the expiry picks the registered sleeper and stops its timer |
| SleepProtocol.PickedWakes | kernel/ipc/poll.cpp:385-393 | in every run a task picked by some party has been made ready by the time it is off that party's list |
| SleepProtocol.SweptWakes | kernel/ipc/poll.cpp:359-394 | in every run an expired sleeper that a timer pass finds blocked and registered has been made ready by the time the pass ends |
| SleepProtocol.StoppedForGood | kernel/ipc/poll.cpp:372-383 | a stopped timer never runs again, so each expired timer is collected once |
| EventQueue.WriteInv | kernel/input/input.cpp:120-129 | the producer's write never touches a slot that is still unread |
| EventQueue.RefusesExactly | kernel/input/input.cpp:120-129 | an event is dropped exactly when the ring was full as the head was loaded, and get fails exactly when it was empty as the tail was loaded |
| EventQueue.NextInv | kernel/input/input.cpp:120-129 | every load, slot access and store of either side keeps the queue's invariant |
| EventQueue.DeliversInOrder | kernel/input/input.cpp:478-489 | however producer and consumer interleave, the events delivered are a prefix of those accepted, in order, and at most one fewer than the ring has slots is pending |
| ConsoleProofs.BufferPutOk | kernel/console/gcon.cpp:143-157 | storing a character changes that cell of the log line shown in that row, and the ring still agrees with the log |
| ConsoleProofs.BufferNewLineOk | kernel/console/gcon.cpp:160-170 | a new line appends a blank line to the log and the ring still agrees with its end, across wrap-around |
| ConsoleProofs.WindowIsLog | kernel/console/gcon.cpp:1159-1184 | redrawing at offset k reads exactly the window of the log k lines before its end |
| ConsoleProofs.InitOk | kernel/console/gcon.cpp:873-883 | after initialisation the ring agrees with the log and holds as many lines as the screen has rows |
| ConsoleProofs.PrintOk | kernel/console/gcon.cpp:916-948 | every character keeps the cursor on the screen and the scrollback in agreement |
| ConsoleProofs.CsiOk | kernel/console/gcon.cpp:621-768 | every control sequence, with wrapping 32-bit parameters, does too, and the view never reaches past the stored lines |
| ConsoleProofs.ScrollUpOk | kernel/console/gcon.cpp:1233-1269 | scrolling back and forth keeps offset + rows within the stored lines |
| ConsoleProofs.XorTwice | kernel/console/gcon.cpp:343-364 | drawing the cursor twice restores every pixel |
| ConsoleProofs.FillCovers | kernel/console/gcon.cpp:1028-1038 | clearing the text area erases a cursor that stands inside it |
| ConsoleProofs.StepUnder | kernel/console/gcon.cpp:895-1130 | one call on the console is the same call on a console without a cursor, seen under the cursor |
| ConsoleProofs.CursorDoesNotInterfere | kernel/console/gcon.cpp:343-477 | in every run the screen with the overlay removed is the screen of the same run with all cursor-visibility operations deleted; the cursor stays in bounds and the scrollback agrees with the log |
| ConsoleView.ScrollShows | kernel/console/gcon.cpp:398-430 | after a scroll the screen shows the end of the log if and only if all but the top row did and a blank line of the buffer looks like the fill |
| ConsoleView.PrintShows | kernel/console/gcon.cpp:916-948 | after a character the screen shows the end of the log if and only if it did outside the cells written and the row scrolled away, and what scrolled in looks blank |
| ConsoleView.OutputShows | kernel/console/gcon.cpp:895-948 | the same for a call of putc from any screen, scrolled back or not |
| ConsoleView.WipeKeeps | kernel/console/gcon.cpp:482-529 | painting a region keeps the screen showing the end of the log if and only if the log looks like that there |
| ConsoleView.CsiKeeps | kernel/console/gcon.cpp:632-768 | every control sequence but paging keeps it so if and only if what it erases looked erased already |
| ConsoleView.StepKeeps | kernel/console/gcon.cpp:895-1078 | every call but paging keeps it so under exactly its condition on the log and the colours |
| ConsoleView.LiveThroughout | kernel/console/gcon.cpp:895-1078 | a run without paging, with the cursor shown or not, shows the end of the log throughout if and only if every call observes that condition |
| ConsoleView.RedrawMirrors | kernel/console/gcon.cpp:1159-1184 | a redraw at offset 0 makes every stored cell show its line of the log |
| ConsoleView.BackAndForth | kernel/console/gcon.cpp:1233-1269 | scrolling back any number of lines and forward again restores every pixel, but where only the offset mark is drawn, if and only if the screen showed the end of the log |
| ConsoleView.BackAndForthWhole | kernel/console/gcon.cpp:1233-1269 | and restores all of the console when the screen is no wider than the buffer |
| ConsoleView.InitLive | kernel/console/gcon.cpp:835-887 | after initialisation the screen shows the end of the log if and only if a blank looks like the cleared screen |
| ConsoleView.StaleAfterOutput | kernel/console/gcon.cpp:910-911 | one line back, then a carriage return: the offset is 0 and the old line is still on the screen |
| ConsoleView.ErasedTextReturns | kernel/console/gcon.cpp:512-529 | text erased to the end of its line is back after one line back and one forward |
| ConsoleObject.Frame.Fill | kernel/console/gcon.cpp:236-254 | the clamped loops paint exactly the rectangle |
| ConsoleObject.Frame.XorCursor | kernel/console/gcon.cpp:343-364 | the loops flip exactly the on-screen pixels of the cell |
| ConsoleObject.Frame.ScrollText | kernel/console/gcon.cpp:412-430 | the in-place copy reads no overwritten row: the result is the text area moved up with its bottom row cleared |
| ConsoleObject.Scrollback.constructor | kernel/console/gcon.cpp:873-883 | a blank ring, prefilled with as many lines as the screen has rows, that agrees with the log |
| ConsoleObject.Scrollback.PutChar | kernel/console/gcon.cpp:143-157 | writes the cell of the ring line that the value model names |
| ConsoleObject.Scrollback.NewLine | kernel/console/gcon.cpp:160-170 | blanks the line at the head and advances it around the ring |

## Left out

- Cache: contents of blocks under true interleaving, and `pin` and `invalidate` there; the write-back of a victim
  happens after it was unlinked and the lock dropped, so contents are stated for serialised calls only.
- Cache: `evict`, `prefetch_block` and `read_ahead`, an older path nothing calls; failed device writes; statistics
  counters; wrap-around of 64-bit block and sector numbers.
- Capability table: `destroy`, `entry_at` and `generation_at`, which would only add easy members.
- CapTableObject.Table.Revoke: a call on a slot of a cycle is excluded because a method cannot state that it does not
  end; `RevokeReturns` states it of the recursion the method is proved against.
- fsck: reads beyond a 4096-byte directory block, which the code makes when a record claims a name that does not fit,
  give zeros here; wrap-around of 64-bit file offsets; printing and argument parsing; failing host reads.
- mkfs: the label, the UUID and the first superblock, which is overwritten; host file errors; printing and usage
  errors.
- MkfsMain.BuildImage: does not model names longer than the length byte, nor `.` and `..` as names, which the writer
  would enter as ordinary names.
- Kernel lookup: the `/sys` prefix that selects the other disk, inode caching, and failing reads.
- Channels: blocking and waking of tasks in `send` and `recv` (one round of each loop is modelled), creation with
  capability handles, `adopt`, release of capabilities in a channel that is closed.
- Channels: memory of the receiving task beyond the bytes copied.
- Sleep: 32-bit wrap of timer identifiers, `poll`, `register_timer_wait_and_block`, and the wait table behind
  `notify_handle`, which here may pick any tasks; the scheduler, which only dispatches ready tasks.
- Event queue: weak memory ordering; the steps are taken to be sequentially consistent. The character buffer and
  mouse scaling.
- Console: glyph shapes and their scaling (an arbitrary predicate on pixels), borders, serial output, and what the
  display server draws while it owns the screen.
- ConsoleView.LiveThroughout: runs that page are left to `BackAndForth` and `OutputShows`, because a screen that is
  scrolled back does not show the end of the log and is not meant to.
- Console.Putc: models `scroll` without its own erasing and redrawing of the cursor, because every caller has erased
  it before.
- Poll sets, the device tree parser, the assign table, boot, drivers, heap and system call wrappers.

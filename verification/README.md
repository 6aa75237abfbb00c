# Verified model of the ext4 flip ioctl and its neighbours

The repository adds one ioctl to ext4, `EXT4_IOC_FLIP_BLOCK_BIT`, which inverts the bit of
a block in the block bitmap, and it ships the two ext4 files it hooks into. This project
models in Dafny the code in those files that has to keep metadata consistent across many
branches and error exits, and proves what the code keeps.

| files | what they model |
|---|---|
| `Errno.dfy` | the error numbers, and the first of two failures |
| `Journal.dfy` | a monitor of the journalling discipline: locks, references, handles, write access before change |
| `Bitmap.dfy`, `FreeSpace.dfy` | block bitmaps as bits, free counts, group descriptors, the two nested checksums |
| `Evfs.dfy`, `EvfsRuns.dfy` | the flip ioctl, and runs of flips |
| `Superblocks.dfy` | the update of the primary superblock and its backups |
| `SuperblockRuns.dfy`, `SuperblockJournal.dfy`, `SuperblockCredits.dfy`, `SuperblockResults.dfy` | what it leaves of the copies, what it does with its transaction, when its credits suffice, what it answers |
| `Inodes.dfy`, `BootLoader.dfy`, `BootLoaderRuns.dfy` | the swap with the boot loader inode, its rollback, two swaps in a row |
| `FlagBits.dfy`, `FileAttr.dfy`, `FileAttrRuns.dfy`, `FileAttrResults.dfy` | setting inode flags and project, runs of it, and what it answers |
| `Labels.dfy` | setting and reading the volume label |
| `Timestamps.dfy`, `DirEntries.dfy` | on-disk times and directory record lengths |
| `IoEnds.dfy` | the counter of unwritten conversions, under any interleaving |

Code that changes state is a class whose methods change fields and arrays step by step;
each method is proved equal to a function of the old state, and the lemmas are about that
function. A call into code that is not in the repository (journal, buffer cache, quota,
migration, the checksum drivers) is a field of an `Answers` value, so that "for all
answers" means every pattern of failures. Checksums are uninterpreted functions.

Each operation reports its steps to the monitor of `Journal.dfy`, which enters `Violation`
for good when a buffer is changed or joined to the transaction without write access under
an open handle, when a lock or reference is taken twice or dropped without being held, and
when a handle is started while one is open or stopped while none is. A monitor that comes
back idle has therefore seen none of that, and every handle has been stopped exactly once.

## Where the code and its description part

- `ext4_update_backup_sb` documents the result 1 as a successful modification
  (linux-6.8/fs/ext4/ioctl.c:100-102). A copy with a bad checksum leaves by the same exit
  with no error, returns 1, and is counted among the journalled copies. `OneMeansModifiedIff`
  says when 1 means a modification, `BadCopiesUseCredits` what the bad copies cost, and
  `NoBackupJournalled` is the filesystem in which nothing fails and no backup is journalled.
- `ext4_update_superblocks_fn` returns 0 although a good copy was left alone, when the write
  access to that copy, asked for under the handle, reports `-EFSBADCRC`. `ZeroMeansUpdated`
  gives the exact outcome of each copy, `UpdatesAllIff` shows that this is the only way, and
  `PassedOver` gives the filesystem in which it happens.
- It asks for three credits for the primary and two backups. A copy whose dirty or sync
  call reports `-EFSBADCRC` has used a credit but is not counted, so more than three buffers
  can be granted. `CreditsSufficeIff` shows that this is the only way, `MountFitsIff` and
  `GoodMountFitsIff` on which mounts it cannot happen, and `Overdraft` how it does.
- `EXT4_INODE_SET_XTIME_VAL` means to clamp seconds to 32 bits, but `clamp_t(int32_t, ...)`
  converts to the type before it compares, so the seconds are cut instead. `ClampIff` says
  when the two agree.
- The flip takes its block number unchecked. Past the end of a short last group it clears a
  padding bit, and the group then counts a free cluster it does not have. `FlipConsistentIff`
  gives the exact condition for one flip, `RunConsistentIff` for a run of them, and
  `PaddingFlipBreaks` a filesystem of one group in which block 5 does it.
- `dax_compatible` compares a request with the old flags only, so one request may set both
  DAX and JOURNAL_DATA. `DaxSafeIff` gives the exact condition, and `BothAdmitted` a request
  that is let through.
- `ext4_set_io_unwritten_flag` counts the inode it is given, the clearing call the inode of
  the io_end. `SetCallKeepsBalanceIff` and `RunBalancedIff` say exactly when the counters
  stay right; `WrongInode` is a call after which they are not.

## Model

| member | source | states |
|---|---|---|
| BlockBitmap.BitIsShifted | linux-6.8/fs/ext4/ext4.h:1271-1275 | bit k of a bitmap is bit k % 8 of byte k / 8, counted from the lowest |
| BlockBitmap.FlippedBytes | linux-6.8/fs/ext4/ext4-evfs.c:84-91 | inverting bit k changes byte k / 8 by exclusive or with 1 << (k % 8), and no other byte |
| BlockBitmap.FlippedBits | linux-6.8/fs/ext4/ext4.h:1271-1275 | inverting a bit of the byte buffer inverts that bit and no other |
| BlockBitmap.FreeBitsIsCardinality | linux-6.8/fs/ext4/ext4-evfs.c:93-100 | the free count the flip maintains is the number of positions whose bit is clear |
| BlockBitmap.FlippedFreeBits | linux-6.8/fs/ext4/ext4-evfs.c:84-100 | inverting a bit moves the number of free clusters by exactly one, in the right direction, and not at all outside the counted range |
| BlockBitmap.FreeBitsBeyond | linux-6.8/fs/ext4/ext4-evfs.c:84-91 | counting further finds no more free clusters exactly if everything further is in use |
| Evfs.FlipBit | linux-6.8/fs/ext4/ext4-evfs.c:84-91 | test, then set or clear in place, inverts exactly the bit at the offset and reports its old value; stated in bits and in bytes |
| FreeSpace.LocateFindsTheCluster | linux-6.8/fs/ext4/ext4.h:2557-2563 | every block of the filesystem is located in an existing group at a cluster that group has, and lies inside that cluster; inverse of the first-block computation |
| FreeSpace.EveryClusterIsFound | linux-6.8/fs/ext4/ext4.h:2557-2563 | every cluster a group has is where its first block is located, so the groups have exactly the clusters blocks can be located at |
| FreeSpace.BlockOfCluster | linux-6.8/fs/ext4/ext4-evfs.c:42-46 | a block is located at the cluster it lies in |
| FreeSpace.CountHalves | linux-6.8/fs/ext4/ext4.h:392-417 | the low half of the free count is in the low word, the high half in the high word of a 64-byte descriptor only |
| FreeSpace.ConsistentIsBalanced | linux-6.8/fs/ext4/ext4-evfs.c:83-111 | a filesystem is consistent exactly if count and checksums fit each bitmap over all the clusters a group can have and the padding is in use |
| FreeSpace.FlipKeepsBalance | linux-6.8/fs/ext4/ext4-evfs.c:83-111 | a flip at any offset, padding included, leaves each group's count, the global counter and both checksums fitting the bitmaps |
| FreeSpace.FlipKeepsConsistency | linux-6.8/fs/ext4/ext4-evfs.c:83-111 | bitmap, group count, global counter, bitmap checksum and descriptor checksum all agree again after a flip; the 32-bit count moves by one without wrapping |
| FreeSpace.FlipConsistentIff | linux-6.8/fs/ext4/ext4-evfs.c:42-46 | a flip keeps consistency exactly when the unchecked cluster number is one the group has; otherwise the group counts one cluster too many |
| FreeSpace.PaddingFlipBreaks | linux-6.8/fs/ext4/ext4-evfs.c:42-46 | a concrete filesystem that is consistent, and the flip that breaks it |
| Evfs.Filesystem.FlipBlockBit | linux-6.8/fs/ext4/ext4-evfs.c:29-135 | for every failure pattern: the return code, the whole new state, and that the call leaves the monitor as it found it but for the one transaction it made |
| Evfs.Filesystem.FlipInPlace | linux-6.8/fs/ext4/ext4-evfs.c:83-111 | the in-place updates between the last write access and the first dirty call turn the state into its flipped image |
| Evfs.Filesystem.UpdateDescriptor | linux-6.8/fs/ext4/ext4-evfs.c:93-111 | count, then bitmap checksum, then descriptor checksum, of one descriptor and no other |
| EvfsRuns.BlocksAreOnClusters | linux-6.8/fs/ext4/ext4-evfs.c:42-46 | block numbers of the filesystem reach only clusters their group has |
| EvfsRuns.FirstFailureDecides | linux-6.8/fs/ext4/ext4-evfs.c:42-134 | the answer is the first failure in the order of the calls, and the filesystem changes exactly if none comes before the flip |
| EvfsRuns.FlipMarksItsBlock | linux-6.8/fs/ext4/ext4-evfs.c:42-91 | a call for a block inverts bit `offset % 8` of byte `offset / 8` of its group's bitmap, where group and offset are those of the cluster the block lies in, and no other byte of any bitmap |
| EvfsRuns.FlipNamesItsBuffers | linux-6.8/fs/ext4/ext4-evfs.c:59-125 | three credits are asked for; granted, changed and joined buffers are the group's bitmap and the descriptor block its descriptor lies in, each exactly as far as the calls succeed |
| EvfsRuns.RunKeepsBalance | linux-6.8/fs/ext4/ext4-evfs.c:48-134 | counts and checksums fit the bitmaps after every run of flips, whatever block numbers it is given and whichever calls fail |
| EvfsRuns.RunConsistentIff | linux-6.8/fs/ext4/ext4-evfs.c:42-134 | a run from a consistent state ends in one exactly if it flips every cluster of the padding an even number of times |
| EvfsRuns.RunKeepsConsistency | linux-6.8/fs/ext4/ext4-evfs.c:48-134 | so all four representations agree after every run about clusters the filesystem has, including runs with failures at any call |
| EvfsRuns.RunBits | linux-6.8/fs/ext4/ext4-evfs.c:46-91 | every bit of every buffer is its first value inverted by the parity of flips of its own cluster |
| EvfsRuns.RunKeepsFrame | linux-6.8/fs/ext4/ext4.h:392-417 | no run changes a group's flags, its other members, or halves a short descriptor does not have |
| EvfsRuns.SameParitySameImage | linux-6.8/fs/ext4/ext4-evfs.c:84-111 | from a state in balance: bitmaps, descriptors with checksums, and counter depend on nothing but the parity of flips per cluster, padding included |
| EvfsRuns.RunsCommute | linux-6.8/fs/ext4/ext4-evfs.c:84-111 | two runs reach the same state in either order |
| EvfsRuns.RunsCancel | linux-6.8/fs/ext4/ext4-evfs.c:84-111 | a run done twice restores the state |
| EvfsRuns.FlipTwiceRestores | linux-6.8/fs/ext4/ext4-evfs.c:84-111 | two flips of one cluster, padding included, restore bitmap, counts and checksums |
| EvfsRuns.ZeroMeansJournalled | linux-6.8/fs/ext4/ext4-evfs.c:59-134 | 0 exactly when every call succeeded, and then both changed buffers are in the transaction; a change is left out exactly when a dirty call failed; a failure before the flip changes nothing |
| Superblocks.SuperblockSet.UpdatePrimary | linux-6.8/fs/ext4/ioctl.c:55-93 | the primary after an update, its result and its journal steps, for every failure |
| Superblocks.SuperblockSet.UpdateBackup | linux-6.8/fs/ext4/ioctl.c:104-173 | one copy after an update, its result and its journal steps; the buffer reference is dropped on every exit |
| Superblocks.SuperblockSet.UpdateAll | linux-6.8/fs/ext4/ioctl.c:184-276 | busy while a resize runs, with nothing changed; otherwise the whole outcome, and RESIZING released exactly when this call took it |
| Superblocks.SuperblockSet.UpdateBackups | linux-6.8/fs/ext4/ioctl.c:234-264 | the loop over the groups ends for every strictly increasing enumerator and computes the outcome the lemmas are about |
| SuperblockRuns.OneMeansModifiedIff | linux-6.8/fs/ext4/ioctl.c:96-173 | the result 1 means a copy with the new fields and a right checksum exactly if its checksum was right before; otherwise nothing was changed |
| SuperblockRuns.LoopContents | linux-6.8/fs/ext4/ioctl.c:232-264 | the loop meets each copy at most once, and the copy ends as what that one meeting, with or without the handle, makes of it; a loop that ends by itself has met every enumerated group but the primary's |
| SuperblockRuns.EveryExitOldOrNew | linux-6.8/fs/ext4/ioctl.c:218-275 | on every exit the primary and each copy are as before or updated exactly once; copies with a bad checksum or outside the enumeration keep every byte |
| SuperblockRuns.ZeroMeansForgiven | linux-6.8/fs/ext4/ioctl.c:241-249 | on 0 the start and every call on the primary succeeded, every enumerated copy was met, and whichever of its read, write access, dirty or sync call failed first did so with -EFSBADCRC |
| SuperblockRuns.ZeroMeansUpdated | linux-6.8/fs/ext4/ioctl.c:241-249 | on 0 the primary and every enumerated good copy hold the new fields under a verifying checksum, or with the checksum field as it was where there are no metadata checksums; but for a copy met under the handle whose write access answered -EFSBADCRC, which keeps every byte |
| SuperblockRuns.UpdatesAllIff | linux-6.8/fs/ext4/ioctl.c:241-249 | 0 vouches for every enumerated good copy, for every filesystem and failure pattern, if and only if no write access to a copy answers -EFSBADCRC |
| SuperblockRuns.PassedOver | linux-6.8/fs/ext4/ioctl.c:136-142 | the concrete filesystem in which the result is 0 and the only copy keeps the old label |
| SuperblockJournal.EveryExitJournals | linux-6.8/fs/ext4/ioctl.c:212-275 | on every exit the handle was stopped once, the primary was granted first and enumerated copies in group order, unjournalled changes came after the stop and in later groups; of the granted buffers all were changed but copies with a bad checksum, and of the changed all joined but those whose dirty call failed |
| SuperblockJournal.JournalTellsWrites | linux-6.8/fs/ext4/ioctl.c:104-173 | which copies are granted, and which are written outside the journal, exactly; the copies changed in one of the two ways are the ones that are updated |
| SuperblockJournal.ZeroMeansJoinedIff | linux-6.8/fs/ext4/ioctl.c:159-172 | on 0 all that was changed under the handle is in the transaction, exactly unless a dirty call answered -EFSBADCRC |
| SuperblockJournal.EveryExitIsIdle | linux-6.8/fs/ext4/ioctl.c:201-275 | idle before, idle after: handle, references and RESIZING are all given back on every exit |
| SuperblockJournal.BadCopiesUseCredits | linux-6.8/fs/ext4/ioctl.c:146-153 | changed buffers and bad copies together are the granted buffers, so within the credits each bad copy leaves one backup less that is changed under the journal |
| SuperblockJournal.NoBackupJournalled | linux-6.8/fs/ext4/ioctl.c:251-261 | the concrete filesystem in which nothing fails, two bad copies fill the transaction, and the one good copy is updated outside it |
| SuperblockCredits.CreditsSufficeIff | linux-6.8/fs/ext4/ioctl.c:243-261 | three credits suffice for every filesystem and failure pattern if and only if no dirty or sync call of a copy reports -EFSBADCRC |
| SuperblockCredits.MountFitsIff | linux-6.8/fs/ext4/ioctl.c:175-182 | on a given mount three credits suffice for every failure pattern if and only if the loop does not visit three copies of which at most one of the first two is bad |
| SuperblockCredits.GoodMountFitsIff | linux-6.8/fs/ext4/ioctl.c:175-182 | on a mount whose visited copies are all good: if and only if there are at most two of them |
| SuperblockCredits.Overdraft | linux-6.8/fs/ext4/ioctl.c:243-261 | for any three such copies, the answers under which four buffers are granted under three credits |
| SuperblockResults.BackupAnswers | linux-6.8/fs/ext4/ioctl.c:104-173 | one copy answers with its first failure, in the order of its calls, and 1 if there is none |
| SuperblockResults.LoopResult | linux-6.8/fs/ext4/ioctl.c:234-264 | the loop ends with the failure of the one copy that is not forgiven, or with that of the stop, which it comes to exactly when two copies are counted under the handle |
| SuperblockResults.UpdateResult | linux-6.8/fs/ext4/ioctl.c:201-275 | the answer of every call: the first failure of the start and the primary's calls, else that of the copy that ends the loop, else the answer of the stop that closed the handle |
| SuperblockResults.ZeroMeansStopped | linux-6.8/fs/ext4/ioctl.c:251-271 | on 0 the stop that closed the handle succeeded |
| SuperblockResults.FineUpdate | linux-6.8/fs/ext4/ioctl.c:201-275 | if nothing else fails the answer is that of the last stop with at most one copy visited, and of the stop in the loop with more; so 0 if nothing fails |
| BootLoader.MemSwap | linux-6.8/fs/ext4/ioctl.c:286-297 | the byte loop exchanges the two prefixes and leaves the rest |
| BootLoader.SwapInodeData | linux-6.8/fs/ext4/ioctl.c:310-345 | the in-place swap turns each inode into its exchange with the other |
| BootLoader.SwapIsInvolution | linux-6.8/fs/ext4/ioctl.c:299-345 | swapping twice restores an inode, but for the extent cache |
| BootLoader.OnlyTwoFlagsMove | linux-6.8/fs/ext4/ioctl.c:334-337 | only HUGE_FILE and EXTENTS move; every other flag and state bit of the word stays |
| BootLoader.Ioctl.SwapBootLoader | linux-6.8/fs/ext4/ioctl.c:372-524 | result and both inodes for every failure pattern; locks, inode reference and handle given back on every exit |
| BootLoader.Ioctl.Settle | linux-6.8/fs/ext4/ioctl.c:473-512 | from the first dirty call on, the swap is either settled with the quota or undone |
| BootLoaderRuns.SwapResult | linux-6.8/fs/ext4/ioctl.c:372-524 | the answer of every call: the first failure before the swap, then a negative answer of a dirty call, then the quota call's where space has to be charged |
| BootLoaderRuns.RollbackRestores | linux-6.8/fs/ext4/ioctl.c:473-512 | a call that got as far as the swap and returns a negative number has put both inodes back in every field but the stamps, and the boot inode's version |
| BootLoaderRuns.ErrorMeansUnswapped | linux-6.8/fs/ext4/ioctl.c:372-524 | a negative result: contents, flags, identity and usage of both inodes as before, but for the first-use preparation of the boot inode; zero: exchanged; no handle opened: nothing changed at all |
| BootLoaderRuns.SuccessExchanges | linux-6.8/fs/ext4/ioctl.c:457-503 | a success exchanges contents and byte usage exactly, for either sign of the difference, and conserves the total |
| BootLoaderRuns.SuccessStamps | linux-6.8/fs/ext4/ioctl.c:462-503 | a success sets change times, versions, generations and sector counts as named, empties both extent caches, and keeps numbers and projects |
| BootLoaderRuns.FirstUse | linux-6.8/fs/ext4/ioctl.c:435-457 | what the file receives: on first use an extent tree with EXTENTS where the filesystem has extents, 60 zero bytes and no EXTENTS elsewhere, size 0, and the boot inode a regular file of root's; otherwise the boot inode's contents and two flags |
| BootLoaderRuns.FirstUseKept | linux-6.8/fs/ext4/ioctl.c:435-457 | a call that opened its handle and fails leaves the boot inode with that beginning on first use, and otherwise with all it held |
| BootLoaderRuns.TwoSwapsRestore | linux-6.8/fs/ext4/ioctl.c:457-503 | two successful swaps restore contents, flags and usage of both inodes |
| BootLoaderRuns.SeedsKeepMatching | linux-6.8/fs/ext4/ioctl.c:347-360 | the checksum seeds match number and generation after every call, undone or not, and are left alone without metadata checksums |
| FlagBits.TurnMixes | linux-6.8/fs/ext4/ioctl.c:663-673 | one turn of the loop extends the masked assignment by one bit |
| FileAttr.SetAllFlags | linux-6.8/fs/ext4/ioctl.c:663-673 | the 32-step loop equals one masked assignment of the settable flags |
| FileAttr.Ioctl.SetFileAttr | linux-6.8/fs/ext4/ioctl.c:1000-1028 | result, inode and handles for every failure pattern; each handle is stopped on every exit |
| FileAttr.Ioctl.SetInodeFlags | linux-6.8/fs/ext4/ioctl.c:587-710 | guards, loop, journal mode and migration, in order, for every failure pattern |
| FileAttr.Ioctl.SetInodeProject | linux-6.8/fs/ext4/ioctl.c:713-805 | the project changes only past every check and the quota transfer |
| FileAttrResults.FlagsResult | linux-6.8/fs/ext4/ioctl.c:587-710 | a flag change answers with its first failure, in the order of the calls and with each condition written in the flags; it writes exactly if none comes before the loop |
| FileAttrResults.ProjectResult | linux-6.8/fs/ext4/ioctl.c:713-805 | answer and inode of a project change for every failure pattern; the inode is left alone unless everything up to the quota transfer succeeds |
| FileAttrResults.ProjectMovesIff | linux-6.8/fs/ext4/ioctl.c:713-805 | the project changes if and only if quota and projects are there, it is another one, the inode is large enough and no quota file, and every call up to the transfer succeeds |
| FileAttrResults.AttrResult | linux-6.8/fs/ext4/ioctl.c:1000-1028 | the outcome of every whole call: answer, stamps and project, the last only past the flag change and the quota transfer |
| FileAttrResults.ImmutableRefusedIff | linux-6.8/fs/ext4/ioctl.c:526-547 | with nothing else in the way a call is refused if and only if IMMUTABLE is set and stays requested while another flag or the project would change; otherwise it is carried out, and a request without IMMUTABLE clears it |
| FileAttrResults.SpecialFlagsResult | linux-6.8/fs/ext4/ioctl.c:686-705 | when JOURNAL_DATA and EXTENTS take the requested value, exactly |
| FileAttrResults.ChangeNeedsHandle | linux-6.8/fs/ext4/ioctl.c:641-684 | a change of the inode needs a handle with one credit, a change of the project a second one |
| FileAttrResults.FlagsShown | linux-6.8/fs/ext4/ioctl.c:984-990 | reading shows the visible flags and no other, PROJINHERIT not for a regular file |
| FileAttrResults.SetThenRead | linux-6.8/fs/ext4/ioctl.c:984-1028 | after a success the modifiable flags and the project that are read are those that were set, but for the project on a kernel without quota |
| FileAttrRuns.AllOrNothing | linux-6.8/fs/ext4/ioctl.c:587-710 | the settable flags are all as requested or the inode is untouched; flags outside the modifiable ones and the state half never change |
| FileAttrRuns.GuardsHold | linux-6.8/fs/ext4/ioctl.c:597-634 | nothing changes on a quota file, JOURNAL_DATA only with the capability, CASEFOLD only on an empty directory where the feature is on |
| FileAttrRuns.SuccessMeansSet | linux-6.8/fs/ext4/ioctl.c:1000-1028 | on 0 every modifiable flag and the project are as requested |
| FileAttrRuns.ImmutableStep | linux-6.8/fs/ext4/ioctl.c:526-547 | a call that finds and leaves IMMUTABLE set changes no flag and no project |
| FileAttrRuns.ImmutableRun | linux-6.8/fs/ext4/ioctl.c:526-547 | so over every run while IMMUTABLE stays set |
| FileAttrRuns.DaxStepIff | linux-6.8/fs/ext4/ioctl.c:564-585 | exactly which calls leave DAX beside a flag that excludes it |
| FileAttrRuns.DaxSafeIff | linux-6.8/fs/ext4/ioctl.c:564-585 | a request is safe whatever happens if and only if it does not ask for DAX and JOURNAL_DATA together or is not admitted |
| FileAttrRuns.BothAdmitted | linux-6.8/fs/ext4/ioctl.c:564-585 | a clean regular inode and an admitted request for DAX and JOURNAL_DATA together |
| FileAttrRuns.DaxRun | linux-6.8/fs/ext4/ext4.h:552-554 | without such requests no run leaves DAX beside an excluded flag |
| FileAttrRuns.GetThenSet | linux-6.8/fs/ext4/ioctl.c:984-1028 | writing back the flags and project just read leaves the whole inode as it was, but for version, change time and derived VFS flags and the PROJINHERIT of a regular file, which reading hides; and those only if the loop runs |
| FileAttrRuns.EchoProject | linux-6.8/fs/ext4/ioctl.c:994-1025 | writing back the project just read keeps it |
| Labels.LabelRoundTrip | linux-6.8/fs/ext4/ioctl.c:1121-1160 | a label of at most 16 bytes comes back zero-padded, a full one stored without a terminator included |
| Labels.StoredBytes | linux-6.8/fs/ext4/ioctl.c:1124-1131 | the caller's bytes up to the terminator reach the superblock, zeros after it |
| Labels.ShownBytes | linux-6.8/fs/ext4/ioctl.c:1143-1162 | of any stored name the bytes up to the terminator are shown, zeros after it |
| Labels.SetLabel | linux-6.8/fs/ext4/ioctl.c:1106-1141 | a label that is too long changes nothing; on 0 the primary holds the label, nothing else changed, and reading shows it |
| Labels.GetLabel | linux-6.8/fs/ext4/ioctl.c:1143-1162 | what is shown is 17 bytes, always terminated |
| Timestamps.PackedBits | linux-6.8/fs/ext4/ext4.h:872-887 | epoch and nanoseconds put together with a shift and an or add up, and the masks take them apart again |
| Timestamps.UnpackedBits | linux-6.8/fs/ext4/ext4.h:878-887 | the masks and the shift of the decoding are a remainder and a quotient |
| Timestamps.DecodeEncodeIff | linux-6.8/fs/ext4/ext4.h:872-887 | a time survives the encoding exactly when its seconds are in the 34-bit range |
| Timestamps.ExtraFields | linux-6.8/fs/ext4/ext4.h:872-876 | the extra word holds the nanoseconds above the two bits of the epoch, for every time |
| Timestamps.DecodedFields | linux-6.8/fs/ext4/ext4.h:878-887 | which time a pair of words is read as |
| Timestamps.EncodeDecode | linux-6.8/fs/ext4/ext4.h:872-887 | every pair of words decodes to a time in range and encodes back to itself |
| Timestamps.RawTime.SetThenGet | linux-6.8/fs/ext4/ext4.h:889-918 | set then get: exact with the extra word, cut to 32 bits of seconds and no nanoseconds without |
| Timestamps.ClampIff | linux-6.8/fs/ext4/ext4.h:894-895 | when the stored seconds are the clamped ones |
| DirEntries.MaskBits | linux-6.8/fs/ext4/ext4.h:2412-2442 | the masks and shifts of the two conversions are remainders and quotients |
| DirEntries.DisjointBits | linux-6.8/fs/ext4/ext4.h:2412-2442 | the parts that are put together with an or have no bit in common |
| DirEntries.CodeOf | linux-6.8/fs/ext4/ext4.h:2426-2442 | the code of every length: itself below 64K, 65535 or 0 for a whole block, bits 16 and 17 in the two low bits otherwise |
| DirEntries.LengthOf | linux-6.8/fs/ext4/ext4.h:2412-2424 | the length every code is read as |
| DirEntries.BigPagesIff | linux-6.8/fs/ext4/ext4.h:2412-2442 | with 64K pages a length is lost exactly if it is zero in a nonempty block or 2^18-4 in a larger one |
| DirEntries.BigPagesLossless | linux-6.8/fs/ext4/ext4.h:333 | lossless for every block size ext4 supports |
| DirEntries.SmallPagesIff | linux-6.8/fs/ext4/ext4.h:2422-2440 | with smaller pages a length is lost exactly from 64K up |
| DirEntries.CodesDiffer | linux-6.8/fs/ext4/ext4.h:2426-2442 | different lengths have different codes |
| DirEntries.RecLenFits | linux-6.8/fs/ext4/ext4.h:2336-2406 | the length computed for an entry is legal, survives the encoding, and the hashes lie past the name and end with the record |
| IoEnds.Inflight.SetUnwrittenFlag | linux-6.8/fs/ext4/ext4.h:3806-3813 | a whole uninterrupted call, given any inode, is its two atomic steps in a row |
| IoEnds.Inflight.ClearUnwrittenFlag | linux-6.8/fs/ext4/ext4.h:3815-3825 | likewise for the clearing call, wakeup included |
| IoEnds.TakeKeepsBalanceIff | linux-6.8/fs/ext4/ext4.h:3806-3825 | an atomic step keeps every inode's counter equal to the io_ends that weigh on it, exactly unless it increments an inode that is not the io_end's own |
| IoEnds.SetCallKeepsBalanceIff | linux-6.8/fs/ext4/ext4.h:3806-3813 | a setting call keeps the counters right if and only if it is given the io_end's own inode or finds the flag set |
| IoEnds.RunDrifts | linux-6.8/fs/ext4/ext4.h:3806-3825 | over every interleaving, whatever inodes the calls are given, a counter is off by exactly the misdirected increments it received less those it missed |
| IoEnds.RunBalancedIff | linux-6.8/fs/ext4/ext4.h:3806-3825 | so a run ends with right counters if and only if these cancel for every inode |
| IoEnds.RunCounts | linux-6.8/fs/ext4/ext4.h:3806-3825 | over every interleaving in which each setting call is given the io_end's own inode, the counter never falls below zero, and between calls it is the number of marked io_ends |
| IoEnds.WakesIff | linux-6.8/fs/ext4/ext4.h:3822-3823 | waiters are woken exactly on the step that takes the counter to zero, once |
| IoEnds.RepeatedCallsAreHarmless | linux-6.8/fs/ext4/ext4.h:3809-3819 | repeating a set, given any inode, or a clear changes nothing |
| IoEnds.TakeKeepsOthers | linux-6.8/fs/ext4/ext4.h:3810-3820 | no step touches another flag bit or another io_end |

## Left out

- Evfs.Filesystem.FlipBlockBit: assumes that no handle is open when the ioctl is entered and
  nothing is held; the global counter is an unbounded number, not 64 bits.
- BootLoader.Ioctl.SwapBootLoader: assumes two distinct inodes, so the swap of the boot loader
  inode with itself is not modelled, nor is the overflow of the byte usage beyond 2^63.
- BootLoaderRuns.TwoSwapsRestore: does not cover a second call that finds the boot loader inode
  bad, because the code then initialises it again.
- Timestamps.RawTime.SetThenGet: assumes nanoseconds below 2^30, as every valid time has.
- Concurrency around the flip: the code takes no group lock, and the model runs one call at
  a time. `IoEnds` is the part with real interleaving.
- `flex_groups.free_clusters`, the buddy allocator's counts and the superblock's own free
  count: the flip does not update them, so nothing is claimed about them.
- Groups whose bitmap is not initialised: a flip never clears `EXT4_BG_BLOCK_UNINIT`
  (`RunKeepsFrame`), and what a later read of such a bitmap does is not part of this model.
- The bodies of `ext4_get_group_no_and_offset`, `ext4_list_backups`, `ext4_bg_has_super`,
  the accessors of the group's free count, the checksum drivers, jbd2, quota, migration and
  the journal-mode switch are not part of the repository; their contracts are the `Contract`
  predicates, `Increasing`, `FreeCount`/`WithFreeCount` and `Charged`.
- Group descriptors are values in a sequence: that several of them share one buffer shows
  in the buffer named to the journal, not in the storage.
- The buffer flags of the superblock update (up to date, write error), the disk block a
  backup lies in, and the UUID callback: the update is proved for every callback.
- The copy between user and kernel memory, capability checks and mount write access appear
  as answers; messages and tracing do not appear.
- The VFS flags a flag change derives, direct I/O waits and preallocations: only their place
  in the order of calls is kept.
- Easy members: the split 64-bit counters, the cluster macros, the feature accessors, the
  hello command and the ioctl dispatch; and resize, defragmentation, trim, encryption,
  verity, fsmap and checkpoint ioctls, which are thin wrappers over code not shown.

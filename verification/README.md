# Verified model of the FAT engine and the kernel under the FTP server

This project models, in Dafny, the two library cores that hold the hard state of the server, and
proves properties of them for all inputs and all runs:

* the FAT engine `library/FatFs/ff.c` as it is built here: no long names, no relative paths, no
  fast seek, no tiny buffer, 512-byte sectors, code page 1251 (`library/FatFs/ffconf.h`);
* the FreeRTOS V6.1.0 kernel files `list.c`, `tasks.c` and `queue.c`: preemptive, mutexes on,
  32-bit ticks, 7 priorities, no task suspension (`FreeRTOSConfig.h`).

`dafny verify dfyconfig.toml` checks everything.

## How the FAT engine is modelled

| file | what it holds |
|---|---|
| `Seqs.dfy`, `Bytes.dfy`, `FatEntry.dfy` | places in sequences, bytes, sectors, the geometry of a volume, the packing of 12-, 16- and 32-bit FAT entries |
| `FatVolume.dfy` | class `FatFs`: the one-sector write-back window, FAT access, data transfers, FSINFO |
| `FatHeap.dfy`, `FatChain.dfy` | cluster chains as a heap; allocation and release of chains |
| `FatData.dfy`, `FatFileState.dfy`, `FatFile.dfy` | class `Fil`: read, write, seek, truncate and synchronise a file over its chain and sector buffer |
| `FatApart.dfy` | what a call leaves alone, and when a buffer agrees with the drive |
| `FatDirState.dfy`, `FatDir.dfy` | class `Dir`: positions in a directory, search, allocation, registering, removing, overwriting |
| `FatOpen.dfy` | opening a file in any mode, and removing one |
| `FatHolders.dfy`, `FatWorld.dfy` | who holds which clusters, the invariant of a volume with open files, and the steps that keep it |
| `FatModel.dfy`, `FatShows.dfy` | the simple form, directories of byte strings with handles, and that a volume stands for it |
| `FatStart.dfy`, `FatSession.dfy` | a volume as mounting finds it; runs of jobs on it |
| `FatStale.dfy` | the run after which two reads of one byte differ |
| `FatName.dfy` | 8.3 names |
| `FatMount.dfy` | the geometry that mounting derives from a boot sector |
| `FatRemount.dfy` | the counts that mounting takes from FSINFO, and that an unmount has saved |

The drive is a sequence of sectors with atomic single-sector transfers. Every transfer may fail;
a ghost counter `faults` counts the failures, so that a contract can say "absent faults", and every
returned disk error is shown to come from a counted one. A request for several sectors transfers
them one by one, as the interface of the disk layer promises (`library/FatFs/diskio.c:96-100`).

What the upper layers see is `View()`, the drive with the window in place. Ghost fields carry the
crash story: `log` is the list of all byte stores made through the window since mounting, `durable`
how many of them are on the drive, `cuts` the decoded FAT after each prefix of the log, and `direct`
the sectors that file data was written to around the window. `Valid()` says that the drive is the
drive at mount with exactly the first `durable` stores replayed, and that the missing ones all lie
in the dirty window sector. A sector of file data that becomes part of a directory leaves `direct`:
its content enters the log as one more store, which is on the drive already. The ghost field `fat`
is the decoded first FAT, so the chain and file layers work on a sequence of links.

A file is a ghost chain of clusters plus a sector buffer; `File` is the byte sequence that they
mean. `Fil.OK()` contains the heap invariant (no dangling link, no shared cluster, no cycle), the
position invariant (`clust` is the cluster of the byte before the position) and that the window is
never on a sector that is or can become part of the file. It says nothing of a clean buffer:
`Matched` says that the buffer agrees with the drive wherever it shows the file, and what a call
promises about bytes is promised for matched buffers. A directory is the sequence of its slots;
`Bindings` is the map from names to entries that they mean.

Every call on a file is also shown to be local (`Stays`, `Within`): it changes FAT entries and sectors
of the file's own and of free clusters only, and none of these clusters is lost. `FatWorld` turns this
into one invariant of a volume with any number of directories, closed files and open files (`Sys`),
which every call, open, overwrite, removal and close keeps; `FatShows` relates it to the simple form of
`FatModel`. `FatSession.Run` drives real objects through any list of jobs and shows that they follow
that model; `FatStart.AtMount` gives the invariant at mount from what a consistency check can tell.

## How the kernel is modelled

| file | what it holds |
|---|---|
| `KernelRing.dfy`, `KernelList.dfy` | a list as a value, and class `KList`: the intrusive doubly linked ring with its pointers |
| `KernelSched.dfy`, `KernelTasks.dfy` | class `Kernel`: ready lists, the two delayed lists, ticks, suspension, event lists, priorities |
| `KernelOrder.dfy` | in which order waiting tasks are woken |
| `KernelRun.dfy` | runs of ticks and calls in any order |
| `KernelOdd.dfy` | the run after which an event wakes a task of lower priority |
| `KernelTimeout.dfy` | time-outs over wake-and-retry rounds |
| `KernelQueue.dfy` | class `Queue`: the ring of bytes, the lists of waiting tasks, the lock counters |
| `KernelQueueProtocol.dfy` | the blocking calls and interrupts as atomic steps, in any interleaving |

Tasks are numbered and the task control blocks are kept in a sequence. Each method of `Kernel` is one
step that the real kernel makes with interrupts off or with the scheduler suspended, so that a run is
any order of method calls. Ghost fields keep time without bound: `Now` counts processed ticks,
`clock` real tick interrupts, `wake` the wake times. The ghost field `order` numbers the calls that put
tasks to sleep; it says who came first, and which event lists nobody's priority was changed on.

`Round` is a ready list in the order in which its tasks get their turns. Every method says what it does
to the rounds: a task that becomes ready comes last, one that leaves leaves the others in order, and a
switch takes the first and puts it last.

In the protocol each critical section of `xQueueGenericSend` and `xQueueGenericReceive` is one step of
a task, a task has a program counter, and interrupts can send and receive between any two steps. The
steps use the same functions (`Send`, `Receive`, `UnlockTx`, ...) that the methods of `Queue` are
proved against.

## Results that differ from what one might expect

* A lone dot is accepted as a file name; it is stored as eleven blanks and has no text. Every other
  accepted name survives the round trip (`NameRoundTrip`).
* Mounting accepts boot sectors whose system area wraps around 32 bits, FAT32 boot sectors with more
  clusters than 28 bits can number, and FAT32 boot sectors with one reserved sector, where FSINFO would
  be the first sector of the FAT. `MountIsSound` gives the exact condition; `SystemAreaWraps`,
  `TooManyClusters` and `FsInfoInsideFat` are examples.
* A truncation at a sector boundary can leave the clean sector buffer on a cluster that it has just
  freed. `StaleRead` is the run that shows it: another file takes the cluster, writes it and gives it up
  again, the first file grows back onto it by a seek past its end, and a byte of the gap reads as its own
  old byte first and, after a read elsewhere, as what the other file wrote. A buffer stops agreeing with
  the drive exactly by such a seek (`FLseek`, `MatchedIffFresh`). The guard for the caller is whether
  the buffer is still on a sector of the file after the truncation (`AtHome`, `CutGood`,
  `HomeAfterCut`); with that, or with truncations that take nothing off or end inside a sector, every
  file is a byte string in every run (`StaysGood`).
* Removing a file gives none of its clusters back: `Unlink` strikes the entry out and leaves the FAT as it
  was. The clusters stay allocated without an owner, which no invariant here forbids.
* An event list is ordered by the value that a task's event item was given last, and `vTaskPrioritySet`
  gives it the new base priority even while the task runs at an inherited one. `LowerWoken` is the run
  after which an event wakes a task of priority 3 while one of priority 5 waits, although no priority
  was changed while they waited. The order is that of `Rank`, which is the priority of all other tasks.
* The upper-case table of code page 1251 stores 0x83, a small letter, as the quotation mark 0x82; its
  capital is 0x81. The two forms of every other letter are stored alike (`LettersFold`).
* A time-out check after two or more overflows of the tick count can miss that the wait is over;
  `ExpiredWhen` says exactly for which pairs of times it is right whatever the wait,
  `TwoOverflowsMissed` is an example. With at most one overflow per round the check is exact.

## Model

| member | source | states |
|---|---|---|
| FatEntry.Geometry.KeptLinks | library/FatFs/ff.c:422-424 | at the mount thresholds every cluster number fits the width of an entry and the end mark reads back as one |
| FatEntry.Decode | library/FatFs/ff.c:875-919 | the value is given by the bytes with their weights written out, low byte first: 28 of the 32 bits on FAT32, both bytes on FAT16, three nibbles on FAT12; it is the entry of the decoded FAT |
| FatEntry.EntryIsEncoded | library/FatFs/ff.c:875-919 | every entry of the decoded FAT is the number that its bytes at 4c, 2c or c + c/2 of the first FAT stand for |
| FatEntry.Merge32 | library/FatFs/ff.c:968-974 | a 28-bit link stored over a 32-bit entry keeps the four reserved bits |
| FatEntry.Pick12Own | library/FatFs/ff.c:946-958 | the two half stores of a FAT12 entry read back as the stored value |
| FatEntry.Pick12Before | library/FatFs/ff.c:946-958 | storing an odd FAT12 entry does not change the even entry that shares its low byte |
| FatEntry.Pick12After | library/FatFs/ff.c:946-958 | storing an even FAT12 entry does not change the odd entry that shares its high byte |
| FatEntry.Store12 | library/FatFs/ff.c:946-958 | the two byte stores of a FAT12 entry, even in two sectors, change that entry and no other |
| FatEntry.Store16 | library/FatFs/ff.c:960-966 | a FAT16 store changes that entry and no other |
| FatEntry.Store32 | library/FatFs/ff.c:968-975 | a FAT32 store changes that entry and no other |
| FatEntry.FatDependsOnFat1 | library/FatFs/ff.c:891-911 | the links are a function of the first FAT alone |
| FatVolume.WrappedTest | library/FatFs/ff.c:772 | the wrapping unsigned comparison is exactly the test for a sector of the first FAT |
| FatVolume.FatFs.constructor | library/FatFs/ff.c:2308-2345 | a freshly mounted volume, its FAT copies equal or not, its window on the boot sector, on FSINFO or unusable, satisfies the volume invariant with an empty journal and has the counts it was given |
| FatVolume.FatFs.SyncWindow | library/FatFs/ff.c:757-781 | on success nothing is pending and the journal is durable; a failed write-back keeps the dirty sector, the drive and the journal as they were; FAT copies that were equal at mount stay equal while no transfer fails |
| FatVolume.FatFs.WriteBack | library/FatFs/ff.c:768-778 | the drive after a write-back: the sector, and its copy in the second FAT if it lies in the first |
| FatVolume.FatFs.ReflectToCopies | library/FatFs/ff.c:772-777 | the copy loop changes the corresponding sector of the second FAT and nothing else, errors ignored |
| FatVolume.WrittenProperties | library/FatFs/ff.c:766-778 | a write-back keeps equal FAT copies equal and changes only the sector and its copy |
| FatVolume.FatFs.MoveWindow | library/FatFs/ff.c:786-807 | the view of every sector is unchanged; on success the window is on the sector; a failed write-back keeps the dirty window, a failed read leaves it unusable |
| FatVolume.FatFs.Store | library/FatFs/ff.c:950-974 | a store through the window is one more journal entry and one more decoded FAT, and is what readers see |
| FatVolume.FatFs.SyncFs | library/FatFs/ff.c:817-846 | on success the whole journal is on the drive and, absent faults, the FSINFO sector has its marks, the free count at byte 488 and the last cluster at 492; no other sector changes in anyone's view |
| FatVolume.FatFs.LoadFsInfo | library/FatFs/ff.c:2311-2332 | the counts come from bytes 488 and 492 of FSINFO exactly if the boot sector announces it, it can be read and has its marks; else they are unknown |
| FatVolume.FatFs.GetFat | library/FatFs/ff.c:875-919 | the link of a cluster, which is the number its bytes encode; 1 for a number that is no cluster, all ones only after a failed transfer; the FAT, the view and the data are unchanged |
| FatVolume.FatFs.PutFat | library/FatFs/ff.c:930-983 | exactly one entry changes, to what its width keeps of the value, and its bytes then encode that; a failure on FAT16 and FAT32 changes nothing |
| FatVolume.FatFs.PutFat12 | library/FatFs/ff.c:946-958 | a FAT12 store in two steps changes one entry, and even a half-failed one changes no other |
| FatVolume.FatFs.ReadSectors | library/FatFs/ff.c:2616-2621 | several sectors read at once are those sectors in order |
| FatVolume.FatFs.WriteSectors | library/FatFs/ff.c:2731-2736 | several sectors written at once change those sectors only, and keep the volume invariant |
| FatVolume.FatFs.ClearOnto | library/FatFs/ff.c:1219-1225 | a cleared window on a new data sector shows a blank sector there and changes no FAT entry |
| FatVolume.FatFs.Adopt | library/FatFs/ff.c:1219-1225 | a sector that file data was written to directly joins the journal when it becomes part of a directory: from then on the drive holds a prefix of its stores too |
| FatHeap.MarkKeeps | library/FatFs/ff.c:1082 | marking a free cluster as last keeps the heap well-formed |
| FatHeap.LinkKeeps | library/FatFs/ff.c:1083-1085 | linking the end of a chain to a marked, unlinked cluster keeps the heap well-formed: no cycle, no sharing, no dangling link |
| FatHeap.FreeKeeps | library/FatFs/ff.c:1005-1032 | freeing a cluster without predecessor keeps the heap well-formed, and its successor then has no predecessor |
| FatHeap.EndKeeps | library/FatFs/ff.c:3433-3435 | ending a chain early keeps the heap well-formed and unlinks what followed |
| FatHeap.ChainExists | library/FatFs/ff.c:1047-1097 | in a well-formed FAT every allocated cluster starts a finite, terminated chain |
| FatHeap.ChainDistinct | library/FatFs/ff.c:1047-1097 | a chain visits no cluster twice |
| FatHeap.ChainsDisjoint | library/FatFs/ff.c:1047-1097 | chains with different heads share no cluster |
| FatHeap.WalkFrees | library/FatFs/ff.c:1005-1032 | on any FAT, even a cyclic or cross-linked one, the release frees exactly the clusters it walks, each once, and the number of free entries grows by as many |
| FatHeap.WalkChain | library/FatFs/ff.c:1005-1032 | on a chain whose head nothing links to, the release frees the whole chain and nothing else, and the heap stays well-formed |
| FatChain.FindFree | library/FatFs/ff.c:1068-1080 | the wrapping scan from any hint ends; it returns the first free cluster after the hint, 0 only if none is free, 1 only if some entry is 1, all ones only after a fault |
| FatChain.ScanStep | library/FatFs/ff.c:1069-1080 | each step of the scan extends the clusters known to be in use, so none is visited twice and the end is reached only when none is free |
| FatChain.StretchKeeps | library/FatFs/ff.c:1082-1085 | marking then linking keeps the heap well-formed after each of the two stores |
| FatChain.StretchCount | library/FatFs/ff.c:1086-1091 | a stretch takes exactly one free cluster |
| FatChain.LinkNew | library/FatFs/ff.c:1082-1085 | the FAT after both stores; on FAT16 and FAT32, also after a failure in between, no prefix of the stores leaves a dangling link |
| FatChain.CreateChain | library/FatFs/ff.c:1047-1097 | follows an existing link, or finds none free, or stretches the chain by the first free cluster after the given one or the hint, which becomes the hint; notes a changed count for FSINFO; keeps the heap, the exact free count and, on FAT16 and FAT32, every cut free of dangling links |
| FatChain.RemoveChain | library/FatFs/ff.c:994-1036 | terminates on every FAT; the FAT and a known free count afterwards are those of the walk, and a changed count is noted for FSINFO; from a head without predecessor it keeps the heap and every cut free of dangling links |
| FatChain.ReleaseFrom | library/FatFs/ff.c:1005-1032 | the release loop against the recursive walk, with the number of used entries as measure |
| FatChain.DriveHoldsPrefix | library/FatFs/ff.c:757-807 | at any moment the FAT on the drive is the one after some prefix of the stores, and so is every sector outside file data; the missing stores lie in the dirty window |
| FatChain.DriveNeverDangles | library/FatFs/ff.c:1082-1085 | on FAT16 and FAT32 the FAT on the drive never links to a free cluster, wherever the run is cut off |
| FatChain.StoreThenLoad | library/FatFs/ff.c:875-983 | put_fat then get_fat returns the stored link, the end mark as at least the number of entries, and every other entry as before |
| FatData.Clust2SectIs | library/FatFs/ff.c:857-865 | the unsigned arithmetic gives the first sector of a cluster, cluster 2 being at the start of the data area, and 0 exactly for numbers that are no cluster |
| FatData.ClustersApart | library/FatFs/ff.c:857-865 | clusters do not overlap on the drive |
| FatData.SecsAt | library/FatFs/ff.c:2596-2615 | sector r of cluster j of the chain is sector j*csize+r of the file |
| FatData.SecsDistinct | library/FatFs/ff.c:2596-2615 | different sectors of a file are different sectors of the drive |
| FatFileState.NextCluster | library/FatFs/ff.c:2598-2615 | at a sector boundary, clust, or the link of clust, or sclust, is the cluster of the next sector |
| FatFileState.Advance | library/FatFs/ff.c:2631-2650 | moving on inside the current cluster keeps the position invariant |
| FatFileState.FlushKeeps | library/FatFs/ff.c:2722-2726 | writing the dirty buffer back does not change the file |
| FatFileState.LoadKeeps | library/FatFs/ff.c:2635-2647 | loading the clean buffer from another sector does not change the file |
| FatFileState.FatReadKeeps | library/FatFs/ff.c:2607 | reading the FAT, with the window write-back that it may cause, does not change any file byte |
| FatFileState.DirectRead | library/FatFs/ff.c:2616-2632 | a direct multi-sector read, patched with the dirty buffer by the wrapping test, is the slice of the file |
| FatFileState.DirectWrite | library/FatFs/ff.c:2731-2751 | a direct multi-sector write, with the buffer refilled, overwrites exactly that slice of the file |
| FatFileState.PutInBuffer | library/FatFs/ff.c:2767-2776 | bytes copied into the dirty buffer overwrite exactly that slice of the file |
| FatFileState.PutAtEdge | library/FatFs/ff.c:2759-2776 | a partial write at the growing edge keeps every byte before the position although the buffer is not filled from the drive |
| FatFileState.NextOrNew | library/FatFs/ff.c:2699-2717 | what create_chain means for a file: the next cluster in place, a full drive, or a chain grown by one cluster with all old bytes kept |
| FatFileState.WroteIsOverwrite | library/FatFs/ff.c:2671-2784 | stores that keep the other bytes amount to overwriting and extending the byte sequence |
| FatFileState.WrappedSize | library/FatFs/ff.c:2693 | the wrapping test is exactly the test for a write past 4 GB |
| FatFileState.SeekHere | library/FatFs/ff.c:3098-3102 | a seek to the same or a later cluster may start from the current cluster |
| FatFileState.Land | library/FatFs/ff.c:3132-3153 | the last leg of a seek ends at the target, in the sector that a walk from the start would reach |
| FatFileState.EndedSplits | library/FatFs/ff.c:3429-3436 | ending the chain behind the current cluster leaves two chains, the second without predecessor |
| FatFileState.Cut | library/FatFs/ff.c:3429-3436 | ending and then releasing frees exactly the clusters behind the current one and keeps the rest of the chain and of the FAT |
| FatFileState.Truncated | library/FatFs/ff.c:3404-3451 | a truncated file is the prefix of the old one up to the position |
| FatFileState.UpdatedEntryIs | library/FatFs/ff.c:2816-2822 | byte by byte: the archive bit is set, size at 28, time and date at 22, first cluster at 26 and 20, the access date cleared, name and creation time kept; it reads back so |
| FatFile.Fil.constructor | library/FatFs/ff.c:2545-2557 | an entry that names a chain of its own, long enough for its size, in a directory table that the window is on, opens as a sound file at position 0 |
| FatFile.Fil.FRead | library/FatFs/ff.c:2570-2661 | returns the slice of the abstract file from the position, clipped at its end, advances by its length and leaves the file unchanged, wherever the buffer agrees with the drive; errors only for the flags or after a fault; nothing outside its own clusters changes |
| FatFile.Fil.LocateForRead | library/FatFs/ff.c:2596-2615 | the current cluster and sector of a position on a sector boundary |
| FatFile.Fil.ReadDirect | library/FatFs/ff.c:2616-2632 | whole sectors go straight to the caller and are the bytes of the file |
| FatFile.Fil.FWrite | library/FatFs/ff.c:2671-2784 | overwrites and extends the abstract file by the bytes written; fewer than asked only on a full drive or past 4 GB; keeps heap, free count and cuts; nothing outside its own and the free clusters changes, even when a transfer fails |
| FatFile.Fil.FollowOrGrow | library/FatFs/ff.c:2699-2717 | the cluster of the next sector, found or newly appended, with all old bytes kept |
| FatFile.Fil.LocateForWrite | library/FatFs/ff.c:2697-2730 | the sector to write next, with the dirty buffer written back first |
| FatFile.Fil.WriteDirect | library/FatFs/ff.c:2731-2751 | whole sectors go straight to the drive and overwrite that slice of the file |
| FatFile.Fil.FLseek | library/FatFs/ff.c:3085-3160 | moves the position, clipped for a read-only file; a writable file grows and keeps its old bytes, on a full drive up to exactly the end of its last cluster; the buffer agrees with the drive afterwards exactly if the gap does not show one that differs |
| FatFile.Fil.SeekFollow | library/FatFs/ff.c:3115-3131 | the cluster-following loop ends in the cluster of the target, or at the end of a full drive |
| FatFile.Fil.SeekLand | library/FatFs/ff.c:3132-3153 | the target's sector is in the buffer and the position invariant holds |
| FatFile.Fil.FTruncate | library/FatFs/ff.c:3404-3451 | the file is cut at the position; exactly the clusters behind it are freed, nothing outside its own and the free clusters changes even when a transfer fails, the free count stays exact and no cut dangles |
| FatFile.Fil.ReleaseAfter | library/FatFs/ff.c:3429-3436 | the partial truncation: end mark first, then release head-first |
| FatFile.Fil.ReleaseAll | library/FatFs/ff.c:3425-3427 | the truncation to nothing frees the whole chain |
| FatFile.Fil.FSync | library/FatFs/ff.c:2793-2831 | afterwards the drive itself holds the file bytes, the directory entry with size at byte 28, time at 22 and first cluster at 26 and 20, and every journal entry; besides its own clusters only the sector of the entry changes |
| FatApart.FileGrows | library/FatFs/ff.c:2699-2717 | create_chain for a file at a cluster boundary: the next cluster in place, a full drive, or one cluster more; no entry and no sector outside the file's and the free clusters changes, even when it fails, and none of these clusters is lost when it succeeds |
| FatApart.WalkOnly | library/FatFs/ff.c:3429-3436 | ending a chain and releasing the rest touches no entry outside the chain, even when it is broken off by an error |
| FatApart.DifferentStarts | library/FatFs/ff.c:994-1097 | two open files that start at different clusters share none |
| FatApart.OtherFileKeeps | library/FatFs/ff.c:2570-3451 | a successful call on one file leaves every other open file what it was: chain, buffer, position and bytes; the files stay disjoint |
| FatApart.HomeAfterCut | library/FatFs/ff.c:3422-3445 | after a truncation the buffer is on a sector of the file exactly if its cluster is one of those kept |
| FatApart.CutGood | library/FatFs/ff.c:3422-3445 | a buffer that no call can make disagree with the drive is still one after a truncation exactly if it is still on a sector of the file |
| FatStale.MatchedIffFresh | library/FatFs/ff.c:2635-2660 | the buffer agrees with the drive, as far as it shows the file, exactly if no byte of the file is stale |
| FatStale.ReadTwice | library/FatFs/ff.c:2570-2661 | a byte under a stale buffer, read twice with a read elsewhere in between, has two values though nothing was written |
| FatStale.StaleRead | library/FatFs/ff.c:3014-3451 | the run that gets there: a file gives up a cluster, another one takes, writes and gives it up, the first grows back onto it by a seek; the first read returns its old bytes, the second what the other file wrote |
| FatSession.DoRead | library/FatFs/ff.c:2570-2661 | a read on an open file, with any clean buffer, as the byte-string model has it, touching nothing of any other file |
| FatSession.DoWrite | library/FatFs/ff.c:2671-2784 | a write likewise |
| FatSession.DoSeek | library/FatFs/ff.c:3085-3160 | a seek likewise |
| FatSession.DoTruncate | library/FatFs/ff.c:3404-3451 | a truncation likewise |
| FatSession.DoSync | library/FatFs/ff.c:2793-2831 | a synchronisation likewise; it changes its own directory entry only |
| FatSession.Turn | library/FatFs/ff.c:2570-3451 | one call on one of several open files: the called file does what the model says, every other file, open or closed, and every directory is what it was, and the whole invariant holds again |
| FatSession.TurnSync | library/FatFs/ff.c:2793-2831 | a synchronisation brings the entry of the file up to date and changes no other slot of the directory and no file |
| FatSession.TurnStart | library/FatFs/ff.c:2435-2560 | an open with any mode does to the directory and the files what the model says: refused, on the file as it is, on an emptied one or on a new one; a new one is refused only when the directory has no free slot and cannot grow |
| FatSession.TurnClose | library/FatFs/ff.c:2842-2870 | a close synchronises and gives the handle up, everything else as it was |
| FatSession.TurnRemove | library/FatFs/ff.c:3460-3520 | a removal takes exactly that name out of its directory, or refuses, and leaves all files and other names alone |
| FatSession.Run | library/FatFs/ff.c:2435-3525 | any sequence of opens, creations, overwrites, removals, reads, writes, seeks, truncations, synchronisations and closes on a volume does what the simple model of directories and byte strings says, job by job, until the drive fails; chains stay whole and apart, the free count right and, on FAT16 and FAT32, every cut free of dangling links |
| FatSession.MountedRun | library/FatFs/ff.c:2184-3525 | the same from mounting on: a volume whose FAT is well-formed, whose directories and files start in different unlinked clusters and fit their chains, and then any jobs |
| FatSession.MetadataPrefix | library/FatFs/ff.c:757-807 | between any two jobs of a run the FAT and every sector of every directory on the drive are what a prefix of all stores made of them |
| FatModel.StaysGood | library/FatFs/ff.c:3422-3445 | in every run whose truncations take nothing off, end inside a sector or leave the buffer at home, every open file is a byte string without reservation |
| FatStart.AtMount | library/FatFs/ff.c:2184-2345 | what a consistency check can tell of a volume is enough for the invariant of all runs, and its entries are files with the bytes of their chains |
| FatStart.OwnersHeld | library/FatFs/ff.c:1047-1097 | files and directories that start in different unlinked clusters of a well-formed FAT share no cluster |
| FatOpen.FOpen | library/FatFs/ff.c:2435-2560 | the answer is decided by the name and the read-only and directory bits of its entry, case by case; afterwards the entry is kept, new or emptied accordingly, nothing outside the directory and the released chain has changed, and the new file object is sound and on that entry |
| FatOpen.Unlink | library/FatFs/ff.c:3460-3520 | a file is removed exactly if it is there and its read-only bit is clear; its entry and no other gets the mark of deleted ones; nothing outside the directory changes |
| FatWorld.SysAfter | library/FatFs/ff.c:2435-3525 | a step that touches only free clusters and those of some owners, and leaves the window in a directory or the FAT, keeps every other file and directory and the whole invariant |
| FatWorld.CallSys | library/FatFs/ff.c:2570-3451 | a call on an open file is such a step |
| FatWorld.SyncSys | library/FatFs/ff.c:2793-2831 | so is a synchronisation, which also brings the slot of the file up to date |
| FatWorld.CreatedSys | library/FatFs/ff.c:1630-1697 | so is registering a new file, with the stretching of its directory |
| FatWorld.EmptiedSys | library/FatFs/ff.c:2493-2509 | so is overwriting a file that nobody has open: its chain is released, all other open files and directories are what they were |
| FatWorld.StruckSys | library/FatFs/ff.c:1708-1744 | so is removing one |
| FatShows.FileWorld | library/FatFs/ff.c:2570-3451 | after a call on a file the volume stands for the same directories and byte strings, but for that file |
| FatShows.EmptiedWorld | library/FatFs/ff.c:2493-2509 | after an overwriting open it stands for the same ones, but for one empty file |
| FatDirState.DirGrows | library/FatFs/ff.c:1214-1235 | stretching a table changes entries and sectors of its own and free clusters only and loses none of them |
| FatDirState.FileBesideDir | library/FatFs/ff.c:1137-1744 | an operation on a directory leaves every open file that shares no cluster with it what it was |
| FatDirState.OpenedOK | library/FatFs/ff.c:2545-2557 | the file invariant of a just opened file from the entry, the FAT and the directory table alone |
| FatDirState.DirBesideFile | library/FatFs/ff.c:2570-3451 | a call on a file leaves every directory in one piece and its slots as they were, but for the sector of the file's own entry |
| FatDirState.DirBesideDir | library/FatFs/ff.c:1137-1744 | an operation on a directory leaves every other directory slot for slot as it was |
| FatDirState.BindingsIs | library/FatFs/ff.c:1510-1561 | the map binds exactly the names of live entries |
| FatDirState.BoundIffHeld | library/FatFs/ff.c:1526-1558 | a name is bound exactly if some slot has it in its first 11 bytes without the volume label bit |
| FatDirState.SlotsInOrder | library/FatFs/ff.c:1137-1175 | the table is the contents of its sectors, read as a file is, cut into entries of 32 bytes |
| FatDirState.EmptiedBytes | library/FatFs/ff.c:2493-2500 | byte by byte: an overwritten entry has no attributes, size 0, no cluster and the creation time at 14; the rest stays |
| FatDirState.ClusterInIs | library/FatFs/ff.c:1289-1301 | the first cluster of an entry from its bytes 26, 27 and, on FAT32 only, 20 and 21 |
| FatDirState.NotBound | library/FatFs/ff.c:1526-1558 | the early stop at the first zero entry is complete: a name not met before it is bound nowhere |
| FatDirState.Registered | library/FatFs/ff.c:1681-1693 | writing a new entry into the first free slot adds one binding and keeps live entries before the first zero entry |
| FatDirState.Deregistered | library/FatFs/ff.c:1732-1739 | marking an entry deleted removes one binding and keeps the directory invariant |
| FatDirState.Lengthened | library/FatFs/ff.c:1219-1227 | blank slots at the end change no binding |
| FatDirState.Rebound | library/FatFs/ff.c:2493-2500 | replacing an entry under the same name changes that binding only |
| FatDirState.SlotStored | library/FatFs/ff.c:1685-1692 | 32 bytes stored at the place of a slot replace that slot and no other, in the fixed root and in chains |
| FatDirState.PlaceUnique | library/FatFs/ff.c:1169-1173 | a slot has one sector, cluster and offset, however it was reached |
| FatDirState.StretchedSlots | library/FatFs/ff.c:1214-1234 | a table stretched by a zeroed cluster is the old table followed by blank slots |
| FatDir.Dir.SetIndex | library/FatFs/ff.c:1137-1175 | reaches the place of every slot inside the table, and reports an internal error exactly outside it |
| FatDir.Dir.Advance | library/FatFs/ff.c:1185-1243 | the next slot of the table, or that it ends |
| FatDir.Dir.StepTo | library/FatFs/ff.c:1185-1243 | stepping i times from the start reaches the same place as going to slot i directly |
| FatDir.Dir.Stretch | library/FatFs/ff.c:1212-1234 | a stretched directory is the old one plus blank slots, its chain extended; refused only when no cluster is free |
| FatDir.Dir.ZeroFill | library/FatFs/ff.c:1218-1227 | every sector of the new cluster is blank and no FAT entry changes |
| FatDir.Dir.Alloc | library/FatFs/ff.c:1254-1279 | the first slot that has one of the two marks of free ones, stretching if need be, with the same bindings; refused only when no slot within reach has one |
| FatDir.Dir.Find | library/FatFs/ff.c:1510-1561 | finds the slot that has the name in its first 11 bytes and is no volume label, and reports absence only if there is none |
| FatDir.Dir.Register | library/FatFs/ff.c:1630-1697 | adds exactly one binding, to an entry of the name and 21 zero bytes; nothing outside its own and the free clusters changes |
| FatDir.Dir.Remove | library/FatFs/ff.c:1708-1744 | removes exactly the binding of the current entry, which becomes 0xE5 and zero bytes; nothing outside the table changes |
| FatDir.Dir.Overwrite | library/FatFs/ff.c:2493-2509 | clears the entry first, then frees exactly its chain head-first, whose place becomes the allocation hint; one slot changes, nothing outside the table and that chain does, the window ends on the entry, the free count stays exact and no cut dangles |
| FatName.CreateName | library/FatFs/ff.c:1956-2015 | the loop computes the name of the first segment of a path, which the next rows characterise |
| FatName.SegmentOf | library/FatFs/ff.c:1957-1976 | the segment begins after all leading slashes of either kind and ends at the next one, a blank, a control character or the end |
| FatName.AcceptedWhen | library/FatFs/ff.c:1974-2014 | accepted exactly if not empty, with at most 8 characters before the first dot, at most 3 and no dot behind it, and none of the characters forbidden in short names |
| FatName.TextIsCapitals | library/FatFs/ff.c:1974-2015 | the text of the accepted name is the segment with each character in its stored form, without a dot at the end |
| FatName.NoSmallLetter | library/FatFs/ff.c:2001-2007 | no accepted name holds a byte from 0x61 to 0x7A |
| FatName.CaseIgnored | library/FatFs/ff.c:1982-2008 | segments that differ in the case of letters only, extended ones but 0x83 included, are accepted as the same name or both refused |
| FatName.SameName | library/FatFs/ff.c:1956-2015 | two accepted segments have the same name exactly if they are the same in capitals up to a dot at the end |
| FatName.SameNameOnlyIf | library/FatFs/ff.c:1956-2015 | without extended characters they then differ in the case of letters and a dot at the end at most |
| FatName.LettersFold | library/FatFs/ff.c:317-322 | the table stores both forms of every letter of the code page alike, except the small letter 0x83 |
| FatName.GetFileInfo | library/FatFs/ff.c:1764-1791 | the loop computes the text of a stored name |
| FatName.StoredTwice | library/FatFs/ff.c:317-322 | the upper-case table is idempotent on what names may contain |
| FatName.NameRoundTrip | library/FatFs/ff.c:1764-2015 | the text of every accepted name has at most 12 characters and is accepted as the same 11 bytes, exactly unless the segment is a lone dot |
| FatName.AcceptedIsStorable | library/FatFs/ff.c:2014-2015 | an accepted name never collides with the marks of free slots |
| FatMount.MountIsSound | library/FatFs/ff.c:2256-2307 | for an accepted boot sector the geometry is sound if and only if the system area does not wrap and, on FAT32, cluster numbers fit 28 bits and a sector precedes the FAT for FSINFO |
| FatMount.MountCovers | library/FatFs/ff.c:2283-2302 | for a consistent boot sector the areas follow each other, n clusters fit the data area and n + 1 do not, and the type is FAT12 exactly up to 4085 clusters, FAT16 up to 65525, else FAT32 |
| FatMount.AcceptedWhen | library/FatFs/ff.c:2256-2307 | where nothing wraps, a boot sector is accepted exactly if it keeps the listed rules, the last one being that the FAT has 12, 16 or 32 bits for each cluster and two more |
| FatMount.EnoughFat | library/FatFs/ff.c:2291-2307 | a FAT that passes the size check has room for every entry, for all three widths |
| FatMount.FsInfoInsideFat | library/FatFs/ff.c:2279-2332 | an accepted FAT32 boot sector whose FSINFO sector is the first sector of the FAT |
| FatMount.SystemAreaWraps | library/FatFs/ff.c:2265-2284 | an accepted boot sector whose system area wraps around, so that the data area starts inside the FAT |
| FatMount.TooManyClusters | library/FatFs/ff.c:2285-2292 | an accepted boot sector with more clusters than 28 bits can number |
| FatRemount.Mount | library/FatFs/ff.c:2308-2332 | a mounted volume shows the drive as it is and, absent faults, has the free count that FSINFO holds, or an unknown one |
| FatRemount.SyncAndMount | library/FatFs/ff.c:817-846 | unmounting and mounting again gives back the free count and the last cluster that were to be saved, and the same FAT, so that an exact free count stays exact |
| KernelRing.TurnIsExact | library/FreeRTOS/include/list.h:187-198 | the index reaches an item after exactly its number of moves and not before |
| KernelRing.OneRound | library/FreeRTOS/include/list.h:187-198 | as many moves as there are items visit each once, in ring order |
| KernelRing.InsertEndIsLast | library/FreeRTOS/list.c:90-110 | an item inserted at the end comes last in the round that begins at the index: it is visited after all present ones, whose order does not change |
| KernelRing.NextTurns | library/FreeRTOS/include/list.h:187-198 | a move of the index returns the first item of the round, which is then its last |
| KernelRing.RemoveSkipsNobody | library/FreeRTOS/list.c:170-189 | removing an item leaves the round of the others unchanged, also when the index is on it |
| KernelRing.InsertAtStays | library/FreeRTOS/list.c:113-167 | a sorted insertion leaves the index on its item, and the round of the others as it was with the new item at its place in it |
| KernelRing.InsertKeepsSorted | library/FreeRTOS/list.c:113-167 | sorted insertion keeps the order and comes last among equals |
| KernelList.KList.constructor | library/FreeRTOS/list.c:63-80 | an initialised list is a ring of the marker alone |
| KernelList.KList.InsertEnd | library/FreeRTOS/list.c:90-110 | the pointer updates insert the item behind the index; one ring, right count, right container |
| KernelList.KList.Insert | library/FreeRTOS/list.c:113-167 | the pointer updates insert the item behind all that are not greater |
| KernelList.KList.Place | library/FreeRTOS/list.c:119-155 | the search ends at the cell behind which the value belongs, also for the value of the marker |
| KernelList.Remove | library/FreeRTOS/list.c:170-189 | the pointer updates remove the item from the list it says it is on, an index on it moving back |
| KernelList.KList.NextEntry | library/FreeRTOS/include/list.h:187-198 | moves the index on, past the marker, and returns the item there |
| KernelSched.TakeOff | library/FreeRTOS/list.c:170-189 | a task taken off leaves every other task where it was |
| KernelSched.PutReady | library/FreeRTOS/tasks.c:250-257 | adding to a ready list keeps every ready task in the list of its priority and the top bound over all of them |
| KernelSched.PutAsleep | library/FreeRTOS/tasks.c:701-724 | a delayed task is put into the list of the epoch it wakes in, in wake order |
| KernelSched.TickStep | library/FreeRTOS/tasks.c:1392-1410 | a tick keeps the invariant; when the count wraps, the delayed list is empty before the lists change places |
| KernelSched.TickPassed | library/FreeRTOS/tasks.c:1387-1413 | a tick readies exactly the sleeping tasks whose wake time it is |
| KernelSched.CaughtUp | library/FreeRTOS/tasks.c:1126-1161 | after a resume the tasks ready are those that were, those whose event came and those whose time has come |
| KernelSched.Turned | library/FreeRTOS/tasks.c:1612-1620 | the task chosen is the first in the round of the highest priority that has a ready task, and is then its last |
| KernelSched.LeaveKeeps | library/FreeRTOS/tasks.c:279-283 | leaving an event list keeps each task's event item where the task says it is |
| KernelSched.Reprioritised | library/FreeRTOS/tasks.c:822-840 | a task that is not ready may change its priority in place |
| KernelTasks.Kernel.AddToReadyQueue | library/FreeRTOS/tasks.c:250-257 | the task is ready and comes last in the round of its priority, behind all its equals; every other round and all other tasks are as they were |
| KernelTasks.Kernel.CheckDelayedTasks | library/FreeRTOS/tasks.c:268-286 | readies exactly the tasks that are due, from the head of the delayed list on, each coming last in its round; nobody due is left |
| KernelTasks.Kernel.IncrementTick | library/FreeRTOS/tasks.c:1387-1413 | processes or counts the tick; a blocked task becomes ready exactly if it is its wake time, those of one tick in the order in which they went to sleep; the delayed list is empty at every wrap |
| KernelTasks.Kernel.TickInterrupt | library/FreeRTOS/tasks.c:1387-1413 | processed plus missed ticks equal real ticks after every tick |
| KernelTasks.Kernel.ResumeAll | library/FreeRTOS/tasks.c:1106-1175 | time catches up with the real ticks; ready are exactly those that were, the pending ones and those whose time has come, the new ones behind the others in their rounds; says whether to yield |
| KernelTasks.Kernel.DrainPending | library/FreeRTOS/tasks.c:1126-1140 | readies every pending task in the order in which their events came, and notes whether one reaches the current priority |
| KernelTasks.Kernel.SwitchContext | library/FreeRTOS/tasks.c:1583-1623 | terminates and picks a highest-priority ready task, the first in its round, which then comes last there; only notes the request while suspended |
| KernelTasks.Kernel.DelayCurrent | library/FreeRTOS/tasks.c:686-727 | the current task leaves its round and sleeps until the given number of ticks from now, nobody else moves |
| KernelTasks.Kernel.PlaceOnEventList | library/FreeRTOS/tasks.c:1627-1693 | the current task joins the event list by its rank, behind its equals, and sleeps at most the given ticks |
| KernelTasks.Kernel.RemoveFromEventList | library/FreeRTOS/tasks.c:1697-1741 | the first waiting task is readied, or kept pending behind the others while suspended; if no rank was changed on the list it has the highest of all that wait there and came first among its equals, and the rank is the priority unless that was set while inherited; says whether it reaches the current priority |
| KernelTasks.Kernel.PrioritySet | library/FreeRTOS/tasks.c:764-858 | base priority always, running priority unless inherited; a ready task goes to the end of its new round, nobody is readied or blocked; records if the rank of a waiting task changes |
| KernelTasks.Kernel.PriorityInherit | library/FreeRTOS/tasks.c:2252-2277 | the holder runs at the higher of the two priorities and, if ready, goes to the end of that round |
| KernelTasks.Kernel.PriorityDisinherit | library/FreeRTOS/tasks.c:2284-2305 | the running holder returns to its base priority, at the end of that round |
| KernelTasks.Kernel.Create | library/FreeRTOS/tasks.c:458-531 | a new task is ready at its capped priority, behind its equals and ranked by it, all others as before; before the scheduler runs the current task stays one of the highest priority, afterwards a yield is asked for by the uncapped priority |
| KernelTasks.Kernel.constructor | library/FreeRTOS/tasks.c:1961-1990 | the initial kernel satisfies the invariant |
| KernelOrder.JoinedInOrder | library/FreeRTOS/tasks.c:1627-1640 | insertion by value puts a task behind all that wait with its rank or a higher one, and before all of a lower one |
| KernelOrder.WokenOrder | library/FreeRTOS/tasks.c:268-286 | a task that is woken, by its event or by its time, leaves the order of the others as it is |
| KernelOrder.GivenOrder | library/FreeRTOS/tasks.c:840 | a change of priority leaves the order of every list as it is on which no rank changes |
| KernelOdd.LowerWoken | library/FreeRTOS/tasks.c:788-853 | a run after which an event wakes the task of priority 3 although one of priority 5 waits |
| KernelRun.Run | library/FreeRTOS/tasks.c:458-2305 | any sequence of ticks, calls and context switches is a trace of the steps below, each moment satisfying the invariant |
| KernelRun.WakesExactly | library/FreeRTOS/tasks.c:681-735 | in every run, over any steps in between, a task that went to sleep for n ticks is ready exactly when n ticks have been processed, unless an event or another wait of its own comes first |
| KernelRun.WakesOnTime | library/FreeRTOS/tasks.c:1106-1175 | the same in real tick interrupts: whenever the scheduler is not suspended, ready exactly if the ticks that were missed when it called and those since make up its n |
| KernelRun.ClockCounts | library/FreeRTOS/tasks.c:1387-1413 | over a run the clock counts the tick interrupts, processed or missed |
| KernelRun.TurnComes | library/FreeRTOS/tasks.c:1605-1620 | in every run, a task that stays ready at its priority is served within as many switches as it had tasks before it, counting those with nobody above ready, whoever becomes ready meanwhile |
| KernelRun.WokenInOrder | library/FreeRTOS/tasks.c:1627-1741 | in every run, if nobody was given a priority while waiting on a list since that was empty, the next event wakes the task of the highest rank there, the first among its equals, and the rank is the priority unless that was set while inherited |
| KernelRun.CameFirst | library/FreeRTOS/tasks.c:1627-1693 | of two tasks that went to sleep one after the other the first is the one that came first |
| KernelTimeout.ExpiredIsExact | library/FreeRTOS/tasks.c:1768-1786 | with at most one overflow the check is exact |
| KernelTimeout.ExpiredWhen | library/FreeRTOS/tasks.c:1768-1786 | for two times, the check is right for every wait exactly if less than 2^32 ticks lie between them, or the overflow counts differ and the tick count is past the saved one, or they are one tick short of whole rounds apart |
| KernelTimeout.TwoOverflowsMissed | library/FreeRTOS/tasks.c:1768-1786 | a wait long over that the check takes for unfinished |
| KernelTimeout.TimeOut.Check | library/FreeRTOS/tasks.c:1744-1791 | expired exactly if the wait is over; otherwise what is left plus what has passed is the wait |
| KernelTimeout.Retry | library/FreeRTOS/queue.c:459-561 | over any number of rounds ticks left plus ticks elapsed equal the wait asked for, and the call gives up at the first check after its end |
| KernelQueue.StoredBack | library/FreeRTOS/queue.c:1064-1072 | a slot written behind the last item appends that item to the sequence |
| KernelQueue.StoredFront | library/FreeRTOS/queue.c:1073-1081 | a slot written where was read last, then stepping back, prepends that item |
| KernelQueue.TakenFirst | library/FreeRTOS/queue.c:1091-1096 | stepping on and reading takes the first item |
| KernelQueue.Queue.constructor | library/FreeRTOS/queue.c:247-294 | a new queue is empty and unlocked, its offsets inside the storage |
| KernelQueue.Queue.CopyDataToQueue | library/FreeRTOS/queue.c:1049-1084 | the items are the old ones with the new one at the back or at the front, for every length and item size, also when the offsets wrap |
| KernelQueue.Queue.CopyDataFromQueue | library/FreeRTOS/queue.c:1087-1096 | yields the first item and moves the read offset to its slot |
| KernelQueue.Queue.TrySend | library/FreeRTOS/queue.c:461-512 | sends exactly if there is room; the first task that waits to receive is woken, the others keep their order |
| KernelQueue.Queue.TryReceive | library/FreeRTOS/queue.c:832-914 | receives or peeks the first item exactly if there is one; a peek leaves the items and wakes the first receiver, a receive the first sender, and the others keep their order |
| KernelQueue.Queue.SendFromISR | library/FreeRTOS/queue.c:767-817 | on a locked queue only counts, else wakes the first receiver, the others keeping their order |
| KernelQueue.Queue.ReceiveFromISR | library/FreeRTOS/queue.c:967-1012 | on a locked queue only counts, else wakes the first sender, the others keeping their order |
| KernelQueue.Queue.LockQueue | library/FreeRTOS/queue.c:225-239 | both counters of an unlocked queue start at 0, those of a locked one stay |
| KernelQueue.Queue.UnlockReceivers | library/FreeRTOS/queue.c:1109-1137 | the loop wakes as many receivers, in order, as items came while locked, or all |
| KernelQueue.Queue.UnlockSenders | library/FreeRTOS/queue.c:1140-1161 | the loop wakes as many senders, in order, as items went while locked, or all |
| KernelQueueProtocol.StepKeeps | library/FreeRTOS/queue.c:451-1162 | every atomic step of every task and interrupt keeps the wake-up invariant and loses or duplicates no item |
| KernelQueueProtocol.TryPeekKeeps | library/FreeRTOS/queue.c:869-890 | a peek keeps the invariant because it hands its wake-up on |
| KernelQueueProtocol.PlaceKeeps | library/FreeRTOS/queue.c:923-943 | going to sleep keeps the invariant because the lock has counted all that came since the queue was seen empty or full |
| KernelQueueProtocol.NoLostWakeUp | library/FreeRTOS/queue.c:451-1162 | in every interleaving, while a receiver sleeps there are no more items than woken receivers still to try plus items the lock has to announce; the same for senders and free slots; sent equals received plus queued |
| KernelQueueProtocol.FirstInFirstOut | library/FreeRTOS/queue.c:451-1096 | in every interleaving in which all sends are to the back, the items received and then those in the queue are the items sent, in the order in which they were sent |
| KernelQueueProtocol.SomebodyIsComing | library/FreeRTOS/queue.c:820-1162 | on an unlocked queue with items, a sleeping receiver is never alone: a woken one can try now |
| KernelQueueProtocol.SomebodyIsSending | library/FreeRTOS/queue.c:451-564 | on an unlocked queue with room, a sleeping sender is never alone |

## Left out

- `follow_path`: a run names directories by number and files by their stored name; walking a path, making, removing, moving and listing directories are not part of it.
- FatSession.Run: the caller keeps to one open object per file, as the library demands without file locking; a job that would break that is skipped, and so is the removal of a directory.
- FatSession.Run: after a truncation at a sector boundary that leaves the buffer behind, bytes of that file are claimed only as long as no seek shows a buffer that differs from the drive (`sure` in `FatModel`); `StaleRead` shows that more would be false.
- Two open objects on one file, which are outside the contract of the library.
- FatFile.Fil.FLseek: the state after a disk error is not described, because the code then aborts the file object.
- FatFile.Fil.FTruncate: truncating to length zero releases the chain while the directory entry still names it, so nothing is claimed about that entry at a cut in between.
- FatChain.DriveNeverDangles: not for FAT12, where one entry is stored in two steps.
- FatChain.DriveHoldsPrefix: sectors that hold file data are written around the window and are not part of the journal; `MetadataPrefix` says that sectors of directories are.
- FatDir.Dir.Stretch: after a disk error during the zero fill nothing is claimed about the directory.
- `f_unlink`: it releases the chain of a directory only, so a deleted file's clusters stay allocated; no claim about unreachable clusters is made.
- KernelTasks.Kernel.PriorityDisinherit: for the running holder only, as the code's own comment demands; nested mutexes are not modelled.
- KernelTasks.Kernel.RemoveFromEventList: nothing is claimed about the order of a list on which a rank was changed, until a task joins it when it is empty, because the code changes the values in place.
- KernelTasks.Kernel.PlaceOnEventList: for waits of at least one tick, which is what the queue code passes; a wait of zero would put a task behind the tick it is due at.
- KernelTasks.Kernel.Create: the idle task is there from the start, and memory for a new task never runs out.
- Task deletion, `vTaskDelayUntil`, task suspension, trace and statistics text, stacks and the context switch itself.
- Yields are returned as flags; which task runs is decided by `SwitchContext` at any later time.
- The protocol is for one queue; mutex hand-over and recursive mutexes are not part of it, and the linked rings of `KList`, the lists of `Kernel` and those of `Queue` are three levels of the same lists, connected by the list functions they share rather than by one object.
- The sector and cluster masks by powers of two are written as remainders; counters of tasks, items and lock events are unbounded.
- Read-only, long-name, Unicode, relative-path, fast-seek and multi-sector-size configurations, `f_mkfs`, `f_fdisk`, string functions, the FTP front end, the disk driver and all board code.

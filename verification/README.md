# GlusterFS core behaviour, modelled and proved in Dafny

This project models seven parts of GlusterFS and proves, for all inputs and all runs, what they are for:

1. **The live graph switch of libgfapi** (`GraphSwitch`, `SwitchInvariant`, `SwitchCarried`, `SwitchRuns`, `SwitchAnswers`, `Glfs`). A transition
   system with one step per section that the code runs under `fs->mutex`; a thread is one operation or one event
   notification, its program point says what it does when it gets the mutex again, and the answers of network calls
   are parameters of the steps. Any number of threads, any interleaving. The class `Glfs` holds the fields of
   `struct glfs` and updates them in place; each of its methods is proved to be the corresponding section.
2. **Path resolution** (`Tokens`, `PathWalk`, `PathTheorems`, `PathDepth`, `PathCache`). The recursion of `glfs_resolve_at`
   against the walk of section 4.13 (Pathname Resolution) of POSIX.1-2017 Base Definitions, and the loop itself over
   an inode table whose dentries may be stale in any way.
3. **The directory stream** (`DirStream`): the page cache and cursor of a directory handle against a bare position.
4. **The size-weighted layout** (`Layout`, `LayoutOrder`, `LayoutPlace`, `Rebalance`) of `extras/rebalance.py`.
5. **Volume files** (`Volfile`, `VolfileMeaning`, `VolfilePrint`, `VolfileRoundTrip`, `VolfileFilter`, `VolfileGraph`,
   `VolfileProtect`): the loader, the printer and the filter passes of `extras/volfilter.py` and
   `extras/prot_filter.py`.
6. **Stripe recovery** (`Stripe`, `StripeTheorems`, `StripeTraditional`) of `extras/stripe-merge.c`.
7. **Disperse geometry** (`Disperse`), the search of `cli_cmd_create_disperse_check`.

`dafny verify dfyconfig.toml` checks everything.

## Where the code does not do what one would expect

These are results of the proofs; in each case the code is modelled as it stands and the exact condition is proved.

- *PARENT_DOWN.* A graph that was displaced from `next_subvol` may come up again between the moment its count reaches
  0 and the moment the event is delivered; it can then be active when it receives PARENT_DOWN
  (`DownReachesActiveGraph`). If it is then retired it gets that event while operations still hold it, and another when
  the last one lets go (`TwoParentDowns`). The number of events a retired graph gets is exactly one plus those that were
  due when it retired (`ParentDownCount`), so "at most once" holds if and only if none were due.
- *Handles.* `glfs_resolve_inode` refreshes on the active graph, not the caller's: an operation on a retired graph is
  given an inode of another graph (`HandleOnActive` has the exact condition, `HandleOnOtherGraph` an instance).
- *Forced lookups.* `inode_link` refuses a dentry that would close a cycle in the cache. A stale cache can therefore
  make a forced walk fail although the server has the path (`StaleWalkFails`). `Refuses` follows the table through the
  uncached walk and says exactly when: otherwise the answer is the uncached one (`ResolveAt`). Nothing is refused if
  cache and server have no cycle between them (`RankedNeverRefuses`).
- *Links without components.* A link to `//` in mid-path fails where a link to `/` is followed (`EmptyTarget`), because
  only the latter is looked up.
- *normalize.* It stops with an attribute error if a brick without a range is listed before the brick it looks for;
  for ranges that cover the hash space it succeeds if and only if new bricks are listed last (`NormalizeSucceedsIff`).
- *stripe-merge.* The target is opened without truncation, so recovery gives the original followed by what the target
  held beyond it (`RecoveredFile`, `MergedFile`): the original if and only if the target was not longer. A missing
  brick leaves old target bytes in the coalesced format but zeros in the traditional one.
- *Disperse.* There is no optimal redundancy exactly when the number of bricks is a power of two (`OptimalExists`).

## Premises

Network calls answer as they like, with these premises: a refreshed inode and a migrated fd lie on the graph asked for
and keep gfid and flags; an opened descriptor lies on a graph that is or was active; the server refuses a lookup whose
gfid hint does not match; the server's directory offsets are distinct and not 0; reads and writes of local files are
not short. The history counters of `GraphSwitch` (`Hist`) are not in the code. A reference abandoned when `mip_subvol`
is overwritten after a failed migration is counted as such. An operation that never ends, such as a symlink resolution
by handle that keeps its reference, is a thread that takes no further step.

## Model

| member | source | states |
|---|---|---|
| GlfsObject.Glfs.SetupGraph | api/src/glfs-master.c:39-71 | in-place `graph_setup`: spurious graphs change nothing, a new one takes `next_subvol` and a reference, the displaced one is owed a release; from a valid object and a sound program point it leaves both so, with flag, descriptors and references in order |
| GlfsObject.Glfs.BeginActiveSubvol | api/src/glfs-resolve.c:916-930 | an operation start takes a wind on the active graph, or moves `next_subvol` to `mip_subvol` and drops the mutex with the flag set; same guarantee |
| GlfsObject.Glfs.FirstLookupDone | api/src/glfs-resolve.c:929-945 | after the first lookup: a failure leaves `mip_subvol` set and returns no graph, success goes on to the cwd or to the descriptors; same guarantee |
| GlfsObject.Glfs.CwdRefreshDone | api/src/glfs-resolve.c:941-955 | after the cwd refresh: same failure, or on to the descriptors with the new cwd; same guarantee |
| GlfsObject.Glfs.MigrateOpenfds | api/src/glfs-resolve.c:883-906 | the list walk skips descriptors with a null gfid and stops at the first to migrate, or commits at the end |
| GlfsObject.Glfs.FdMigrateDone | api/src/glfs-resolve.c:900-904 | a migrated fd replaces the descriptor's, a failure leaves it, and the walk continues behind it; same guarantee |
| GlfsObject.Glfs.CommitSwitch | api/src/glfs-resolve.c:959-967 | active, old, mip and cwd change in one section |
| GlfsObject.Glfs.FinishSubvol | api/src/glfs-resolve.c:1015-1029 | the operation takes its wind, `old_subvol` is marked switched and owed a release |
| GlfsObject.Glfs.DropWind | api/src/glfs-resolve.c:977-1003 | the count drops by one, and PARENT_DOWN is due exactly when it reaches 0; same guarantee |
| GlfsObject.Glfs.BeginResolveFd | api/src/glfs-resolve.c:847-856 | no network call if the descriptor is on the caller's graph; same guarantee |
| GlfsObject.Glfs.EndResolveFd | api/src/glfs-resolve.c:855-865 | the descriptor moves only if the caller's graph is the active one; same guarantee |
| GlfsObject.Glfs.BeginCwdSet | api/src/glfs-resolve.c:1036-1054 | chdir sets cwd at once or refreshes the inode on the active graph first; same guarantee |
| GlfsObject.Glfs.EndCwdSet | api/src/glfs-resolve.c:1039-1054 | a failed refresh leaves cwd alone; same guarantee |
| GlfsObject.Glfs.BeginCwdGet | api/src/glfs-resolve.c:1072-1087 | in a valid object cwd is returned without a network call and is on the active graph |
| GlfsObject.Glfs.BeginResolveInode | api/src/glfs-resolve.c:1104-1117 | a handle's inode is used as it is only if fresh and on the caller's graph; same guarantee |
| GlfsObject.Glfs.EndResolveInode | api/src/glfs-resolve.c:1115-1126 | the handle keeps its file, and takes the new inode only if the caller's graph is active; same guarantee |
| GlfsObject.Glfs.BindFd | api/src/glfs.c:650-661 | the descriptor joins the end of `openfds`; same guarantee |
| GlfsObject.Glfs.DestroyFd | api/src/glfs.c:608-624 | the descriptor leaves `openfds` and its fd is let go; same guarantee |
| GlfsObject.RefreshInodeSafe | api/src/glfs-resolve.c:78-140 | exactly when a refresh succeeds, and that it gives the same gfid on the graph asked for |
| GlfsObject.MigrateFdSafe | api/src/glfs-resolve.c:661-823 | exactly when fd migration succeeds, locks included, with gfid and flags kept, which is the premise of the descriptor steps; a failed fsync on the old graph does not make it fail |
| SwitchInvariant.SectionGood | api/src/glfs-resolve.c:916-1054 | every section, from a state that meets the invariant, leaves slots, cwd, list, flag, descriptors and reference balance in order |
| SwitchInvariant.SectionCounts | api/src/glfs-resolve.c:977-1032 | what every section adds to or takes from one graph's count, for one thread |
| SwitchInvariant.SectionFrame | api/src/glfs-internal.h:440-452 | a section of a thread that is not migrating changes nothing a migration relies on while the flag is set |
| SwitchRuns.StepInv | api/src/glfs-resolve.c:883-1054 | every step of every thread keeps the whole invariant |
| SwitchRuns.RunInv | api/src/glfs-resolve.c:883-1054 | every state of every run meets the invariant |
| SwitchRuns.Accounting | api/src/glfs-resolve.c:916-1032 | in every reachable state a graph's winds are its slots plus references held or owed plus abandoned ones; never negative, never in two slots |
| SwitchRuns.AssertionHolds | api/src/glfs-resolve.c:992-1002 | a count that reaches 0 is never the active graph's, nor that of any slot or holder |
| SwitchRuns.LogicalLock | api/src/glfs-internal.h:440-452 | from a mutex drop to the thread's return, whatever others do, the flag is set and active, mip, cwd, list, descriptors and switched graphs do not change |
| SwitchRuns.MigrationSection | api/src/glfs-resolve.c:926-967 | a migration goes on with everything in place, switches to the graph picked and leaves the operation holding it, or, exactly if the first lookup or the cwd refresh fails, leaves the old graph in charge |
| SwitchRuns.MigrationFrozen | api/src/glfs-resolve.c:826-906 | through all network calls of a migration the picked graph, active graph, cwd and the list being walked stay as they were |
| SwitchRuns.CommittedIsPicked | api/src/glfs-resolve.c:883-974 | the graph committed is the `next_subvol` of the start, with the same cwd file, and the old active graph is retired; every listed descriptor with a gfid is on the new graph except those whose migration failed, and every other one is as it was; the operation holds the new graph; or, exactly if the first lookup or the cwd refresh failed, the picked graph is left in `mip_subvol`, and active graph, cwd, list, descriptors and retired graphs are as they were |
| SwitchRuns.FailedMeans | api/src/glfs-resolve.c:900-904 | the exceptions are exactly the descriptors for which a step of that thread reported a failure |
| SwitchCarried.SectionCarries | api/src/glfs-resolve.c:883-906 | every section of a migration carries the descriptors on exactly as far as its list position says |
| SwitchRuns.DescriptorKeepsFile | api/src/glfs-resolve.c:714-906 | a descriptor keeps gfid and flags through any number of switches |
| SwitchRuns.NeverDraggedBack | api/src/glfs-resolve.c:857-865 | a descriptor never moves to a retired graph |
| SwitchRuns.DescriptorsLive | api/src/glfs-resolve.c:883-906 | with no migration walking the list every descriptor is on a graph that is or was active |
| SwitchRuns.ResolveReturns | api/src/glfs-resolve.c:847-880 | resolving gives the descriptor's file on the caller's graph, moves the descriptor exactly if that graph is active, and a failure changes nothing |
| SwitchRuns.CwdOnActive | api/src/glfs-resolve.c:939-967 | whenever the mutex is free cwd is unset or on the active graph, so neither reading it nor the commit needs the network |
| SwitchRuns.RetiredStep | api/src/glfs-master.c:41-48 | no step puts a retired graph in a slot or gives it a new holder |
| SwitchRuns.SwitchedForever | api/src/glfs-master.c:41-48 | over any run a switched graph stays out of all slots and its holders only decrease |
| SwitchRuns.RetiringStep | api/src/glfs-resolve.c:1019-1023 | the step that retires a graph decides and sends no event for it |
| SwitchRuns.ParentDownCount | api/src/glfs-resolve.c:977-1032 | exact number of PARENT_DOWN events since retirement; once, and only after the last holder let go, if and only if none were due before |
| SwitchRuns.InstalledOnce | api/src/glfs-master.c:39-71 | a graph installed once gets at most one PARENT_DOWN in its life, and none while referenced |
| SwitchRuns.DownReachesActiveGraph | api/src/glfs-resolve.c:998-1002 | a reachable state in which PARENT_DOWN is sent to the active graph |
| SwitchRuns.TwoParentDowns | api/src/glfs-resolve.c:977-1032 | a run in which a retired graph gets two PARENT_DOWN events, the first while an operation holds it |
| SwitchRuns.HandleOnActive | api/src/glfs-resolve.c:1104-1141 | resolving a handle gives its file on the active graph, which is the caller's graph if and only if that is not retired |
| SwitchRuns.HandleOnOtherGraph | api/src/glfs-resolve.c:1115-1116 | a reachable state in which an operation on a retired graph is given an inode of another one |
| SwitchAnswers.GraphInstalled | api/src/glfs-master.c:39-71 | in every reachable state, also while a graph is being migrated to, a graph that is neither retired nor in a slot becomes `next_subvol` and takes a reference, the one it displaces is owed a release, and any other changes nothing |
| SwitchAnswers.StartGetsActive | api/src/glfs-resolve.c:1012-1028 | an operation that starts with no graph pending works on the active graph, whose count rises by one, and nothing else changes |
| SwitchAnswers.StartPicks | api/src/glfs-resolve.c:926-929 | with a graph pending it picks that one, also after a failed attempt |
| SwitchAnswers.CommitSets | api/src/glfs-resolve.c:959-967 | from any state the migrating graph becomes active and the new cwd is set in the same section, or refreshed first if it is on another graph |
| SwitchAnswers.CommitRefreshed | api/src/glfs-resolve.c:1039-1053 | then it is set if the refresh gave one |
| SwitchAnswers.ListIsDescriptors | api/src/glfs.c:608-661 | in every reachable state `openfds` is the descriptors that exist, each once |
| SwitchAnswers.EveryDescriptor | api/src/glfs-resolve.c:883-906 | so a switch carries every descriptor that exists when it starts, unless its gfid is null or the network failed for it |
| SwitchAnswers.BoundLast | api/src/glfs.c:650-661 | a bound descriptor is last in the list and nothing else changes |
| SwitchAnswers.DestroyedLeaves | api/src/glfs.c:608-624 | a destroyed one leaves it and the others stay in order and as they were |
| SwitchAnswers.ResolveStarts | api/src/glfs-resolve.c:847-856 | the descriptor's own fd is handed out exactly if it is on the caller's graph, otherwise the network is asked with the flag set |
| SwitchAnswers.ResolveAnswers | api/src/glfs-resolve.c:847-880 | over any interleaving every fd handed out is the file the descriptor had at the call, on the caller's graph; the descriptor takes it over exactly if that graph is active |
| SwitchAnswers.ChdirStarts | api/src/glfs-resolve.c:1036-1048 | chdir to an inode of the active graph sets it at once, any other goes to the network first |
| SwitchAnswers.ChdirAnswers | api/src/glfs-resolve.c:1036-1067 | over any interleaving cwd is then that file on the active graph, or what it was if the network failed |
| SwitchAnswers.GetCwdAnswers | api/src/glfs-resolve.c:1072-1102 | reading cwd never needs the network and changes nothing |
| SwitchAnswers.HandleStarts | api/src/glfs-resolve.c:1104-1117 | a handle's inode is used exactly if it is fresh and on the caller's graph |
| SwitchAnswers.HandleAnswers | api/src/glfs-resolve.c:1104-1141 | otherwise, over any interleaving, the answer is its file on the graph active at the call and still active |
| SwitchAnswers.NeverStuck | api/src/glfs-internal.h:440-452 | the flag is set only while some thread waits for the network, which can go on whatever the answer; every other thread can end, release or deliver with the flag set or not |
| SwitchAnswers.MigrationBounded | api/src/glfs-resolve.c:883-955 | a migration makes at most two network calls more than there are descriptors |
| PathTheorems.NeverLink | api/src/glfs-resolve.c:515-553 | with follow at least 1 the result is never a symbolic link |
| PathTheorems.SeenIsType | api/src/glfs-resolve.c:458-603 | on success the iatt type is the inode's type |
| PathDepth.TrackIsWalk | api/src/glfs-resolve.c:494-568 | noting the nesting of links does not change the POSIX walk |
| PathDepth.TrackJoin | api/src/glfs-resolve.c:494-568 | walking to a directory and on is walking the joined components, as deep as the deeper part |
| PathDepth.TrackSplit | api/src/glfs-resolve.c:494-568 | a walk of joined components passes through the directory its first part names |
| PathDepth.ResolveSound | api/src/glfs-resolve.c:458-603 | a resolution that succeeds returns what the POSIX walk returns |
| PathDepth.ResolveIff | api/src/glfs-resolve.c:515-553 | the code finds an inode if and only if the walk does and its links are nested no deeper than the bound; how many links there are does not matter |
| PathTheorems.ParentIsPrefix | api/src/glfs-resolve.c:570-591 | `loc.parent` is set, on success and failure, exactly when all components but the last lead to a directory, and is that directory |
| PathTheorems.ComposeAtSlash | api/src/glfs-resolve.c:494-568 | at every follow level resolving `p/q` is resolving `q` from the directory `p` stands for, which with follow at least 1 is what `p` resolves to |
| PathTheorems.EmptyTarget | api/src/glfs-resolve.c:482-492 | a link without components in mid-path is passed exactly if it holds `/` |
| PathTheorems.AbsolutePath | api/src/glfs-resolve.c:482-492 | a path with a leading slash is resolved from the root, the same from every directory |
| PathTheorems.RelativePath | api/src/glfs-resolve.c:482-487 | any other path is resolved from the caller's directory |
| PathTheorems.LinkStart | api/src/glfs-resolve.c:515-553 | a link's contents are resolved one level deeper, from the root with a leading slash and otherwise from the directory that holds the link, and the path goes on from there |
| PathTheorems.ManyLinks | api/src/glfs-resolve.c:515-553 | links at one level use up no depth |
| PathTheorems.SelfLoopFails | api/src/glfs-internal.h:21 | a link to itself fails at every depth |
| PathCache.InodeTable.Unlink | api/src/glfs-resolve.c:400-402 | only the dentry that maps to the inode goes |
| PathCache.InodeTable.Link | libglusterfs/src/inode.c:1047-1072 | a dentry is refused exactly if it would close a cycle; a coherent table stays coherent; the parent is found through the new dentry and no longer through a displaced one |
| PathCache.InodeTable.ResolveComponent | api/src/glfs-resolve.c:264-455 | a forced lookup of an ordinary name gives the server's answer whatever the table holds, exactly unless the link is refused, and the table it leaves is known; so does any lookup in a coherent table |
| PathCache.InodeTable.EnterComponent | api/src/glfs-resolve.c:502-556 | one turn of the component loop, with the nested call for a link, is the uncached turn exactly unless the table at its start makes it refuse a link; nesting stays within the bound |
| PathCache.LookedFresh | api/src/glfs-resolve.c:389-439 | a forced lookup leaves in the table what the server has under that name and touches no other |
| PathCache.InodeTable.WalkComponents | api/src/glfs-resolve.c:494-568 | the component loop from a directory gives the uncached walk under the same conditions, and the table it leaves is known |
| PathCache.InodeTable.ResolveAt | api/src/glfs-resolve.c:458-603 | with reval set a path free of dots gives the uncached answer from any table, except that it fails if and only if the table at the call refuses a link of the walk; termination and depth bound on every symlink graph; the walk starts at the root for a leading slash, else at the directory given |
| PathCache.RankedNeverRefuses | libglusterfs/src/inode.c:1062-1066 | nothing is refused if table and server have no cycle between them |
| PathCache.InodeTable.ResolveWithRetry | api/src/glfs-internal.h:106-114 | the retry's answer is the uncached one, except that it fails if and only if the table left by the first attempt refuses a link of the walk |
| PathCache.StaleTableRefuses | libglusterfs/src/inode.c:1062-1066 | a stale table that refuses a path which the server, itself free of cycles, has |
| PathCache.StaleWalkFails | api/src/glfs-resolve.c:432-439 | a forced resolution from that table fails |
| DirStream.DirFd.EntryRefresh | api/src/glfs-fops.c:2687-2773 | a page from the current offset replaces the cache; a failure changes nothing |
| DirStream.DirFd.EntryNext | api/src/glfs-fops.c:2776-2800 | hand out the cursor's entry, refreshing first at offset 0 or without a cursor |
| DirStream.DirFd.TellDir | api/src/glfs-fops.c:2453-2457 | the cookie of the current position, one that seekdir knows |
| DirStream.SeekToTold | api/src/glfs-fops.c:2453-2487 | seeking to what telldir gave makes the next read what it would have been then, whatever was done in between |
| DirStream.DirFd.SeekDir | api/src/glfs-fops.c:2462-2487 | the cursor goes behind the cached entry with that offset, if another follows |
| DirStream.CookieRoundTrip | api/src/glfs-fops.c:2453-2487 | offsets and positions determine each other |
| DirStream.ReadStep | api/src/glfs-fops.c:2776-2800 | a read returns the entry at the position and advances by one, or End at the end; it fails exactly if it has to ask the server and that fails, without change; a page serves until its last entry is handed out |
| DirStream.SeekStep | api/src/glfs-fops.c:2462-2487 | a seek to a known offset keeps the page and sets the cursor exactly if the page has the entry and another behind it |
| DirStream.StreamIsPosition | api/src/glfs-fops.c:2687-2800 | every run of reads, failed refreshes, telldir and seekdir, for every page splitting, outputs what a bare position in the listing would |
| DirStream.ReadsWholeListing | api/src/glfs-fops.c:2687-2800 | reading to the end returns every remaining entry once and in order |
| Layout.LeftoverBounds | extras/rebalance.py:95-103 | the rounded-down shares miss 2^32 by less than the number of bricks |
| Layout.ApportionFair | extras/rebalance.py:95-111 | good sizes add up to exactly 2^32; each is at least the rounded-down share and exceeds the exact share by less than the number of bricks; only the first brick with a rounded-down share, or the first of all, gets more than that share |
| LayoutOrder.NormalizeTiles | extras/rebalance.py:113-131 | on success a permutation whose first `used` ranges tile the hash space |
| LayoutOrder.FindStartFirst | extras/rebalance.py:119-130 | the scan stops at the first brick that starts there or has no range |
| LayoutOrder.NormalizeFails | extras/rebalance.py:113-131 | a reported gap is the end of a tiling by some bricks at which no other starts; the attribute error comes from a brick without a range |
| LayoutPlace.NormalizeKeepsOrder | extras/rebalance.py:131-131 | the bricks without a place stay in the order listed |
| LayoutOrder.TilesOwner | extras/rebalance.py:113-131 | in a tiling every hash value has exactly one owner |
| LayoutOrder.ScanOutcome | extras/rebalance.py:119-130 | over ranges that partition the space the scan finds the next brick unless one without a range is in the way |
| LayoutOrder.NormalizeSucceedsIff | extras/rebalance.py:113-131 | over such ranges normalize never finds a gap and succeeds if and only if new bricks are last |
| LayoutPlace.ScoreCounts | extras/rebalance.py:133-153 | the score is the number of hash values whose proposed owner owned them before |
| LayoutPlace.GetScore | extras/rebalance.py:133-153 | the loop computes that number |
| LayoutPlace.PlaceStep | extras/rebalance.py:262-277 | each placement goes to the first position of maximal score, moves only for a strictly greater one, permutes, keeps the order of placed bricks and does not lower the score |
| LayoutPlace.FirstBestUnique | extras/rebalance.py:263-272 | which leaves one position |
| LayoutPlace.GreedyPlaces | extras/rebalance.py:262-277 | the greedy loop places the bricks one after the other, each at that position |
| LayoutPlace.GreedyFacts | extras/rebalance.py:260-277 | so does the whole greedy loop |
| LayoutPlace.RangedPartition | extras/rebalance.py:279-284 | the final ranges give every hash value exactly one brick |
| Rebalance.Volume.RoundDown | extras/rebalance.py:96-102 | the first loop gives every brick its rounded-down share and knows the remainder |
| Rebalance.Volume.FirstWithShare | extras/rebalance.py:105-108 | the scan finds the first brick with a share |
| Rebalance.Volume.CalcSizes | extras/rebalance.py:95-111 | in place, the apportionment above |
| Rebalance.Volume.NormalizeBricks | extras/rebalance.py:113-131 | the nested loops terminate and give the permutation, tiling and order above, or a real gap, or the error of a brick without a range |
| Rebalance.Volume.FindBestPlace | extras/rebalance.py:263-272 | the first position of maximal score; a brick moves only for more than it scores where it is |
| Rebalance.Volume.PlaceNewBricks | extras/rebalance.py:262-277 | in place, the greedy placement |
| Rebalance.Volume.AssignRanges | extras/rebalance.py:279-284 | in place, consecutive ranges of the good sizes |
| Rebalance.Volume.FixLayout | extras/rebalance.py:255-284 | the whole computation succeeds exactly when normalize does, and gives the greedy placement of the normalized bricks: fair shares, placed bricks in order, score not lowered, every 32-bit hash with exactly one owner |
| Volfile.ResolveSubvolumes | extras/volfilter.py:112-115 | names are looked up in order, the first unknown one is the error |
| Volfile.LoadLine | extras/volfilter.py:93-121 | one line, with each way it can fail |
| Volfile.Load | extras/volfilter.py:82-124 | the line loop gives the meaning of the file or its first error |
| Volfile.LoadedGraph | extras/volfilter.py:82-124 | whatever the text, what loads is acyclic, every name is in the dictionary, the root is the last one closed |
| VolfileMeaning.BodyMeans | extras/volfilter.py:104-115 | the lines of a definition are read exactly if each is proper; type and each option are those of the last such line, subvolumes those of all lines in order |
| VolfileMeaning.LoadMeans | extras/volfilter.py:82-124 | a file of definitions loads exactly if every line is proper where it stands, and gives them, each subvolume being the latest earlier definition of its name |
| VolfileMeaning.LoadsOnlyFiles | extras/volfilter.py:82-124 | every file that loads is such a sequence of definitions |
| VolfileMeaning.LoadFails | extras/volfilter.py:97-123 | a file is refused exactly with the fault of its first faulty line, or as unclosed |
| VolfileMeaning.JoinSpaces | extras/volfilter.py:110-110 | words are joined with one space |
| VolfilePrint.VisitOrdered | extras/volfilter.py:126-131 | printing order keeps children before parents, without repetition |
| VolfilePrint.OrderFacts | extras/volfilter.py:126-139 | exactly the translators reachable from the root are printed, each once, children first |
| VolfilePrint.LeftToRight | extras/volfilter.py:127-131 | subvolumes are printed from left to right, each with what is below it before the next |
| VolfilePrint.BlockLines | extras/volfilter.py:132-139 | the lines of a block, one by one |
| VolfilePrint.SpacedAt | extras/volfilter.py:129-130 | blocks follow each other with one empty line between |
| VolfileGraph.Graph.PrintBlock | extras/volfilter.py:132-139 | the lines of one translator |
| VolfileGraph.Graph.Generate | extras/volfilter.py:126-139 | the recursion with dumped flags prints, from any set already dumped, what the order says |
| VolfileGraph.Graph.GenerateAll | extras/prot_filter.py:85-98 | from a fresh graph, the whole file |
| Volfile.WordsOfJoin | extras/volfilter.py:96-110 | splitting undoes joining |
| VolfileRoundTrip.BlockRun | extras/volfilter.py:92-120 | reading a printed block appends the translator with its subvolumes found by name |
| VolfileRoundTrip.RoundTrip | extras/volfilter.py:82-139 | loading what was printed rebuilds the reachable graph: types, options, subvolume order, sharing, names and root |
| VolfileRoundTrip.Reload | extras/volfilter.py:165-167 | load, print, load again gives the same graph, for any file whose reachable translators are typed and uniquely named |
| VolfileFilter.PushedNames | extras/prot_filter.py:100-109 | a name that mentions its type is kept, and the filter gets it with the first mention replaced; otherwise both get a suffix |
| VolfileFilter.SuffixIs | extras/prot_filter.py:101-102 | a type's suffix is what stands between its first slash and the next, or the end |
| VolfileFilter.SuffixIff | extras/prot_filter.py:101-102 | it has one exactly if it has a slash |
| VolfileFilter.PushedAs | extras/prot_filter.py:100-119 | pushing c/d on a translator of type a/b: a name with `-b` is kept, and the filter has `-d` at the first `-b`; otherwise both are appended; exact objects and dictionary |
| VolfileGraph.Graph.PushFilter | extras/prot_filter.py:100-119 | the object becomes the filter and a new object holds what it was; a type without a slash changes nothing |
| VolfileGraph.Graph.RunPass | extras/prot_filter.py:133-143 | a pass over the snapshot filters exactly the wanted objects in the dictionary, whatever the order, and with fresh names the dictionary stays right; the dictionary afterwards is exact |
| VolfileGraph.Graph.Protect | extras/prot_filter.py:126-143 | both passes, each over exactly what its dictionary holds, or nothing if no configured volume is there |
| VolfileFilter.FilteredAcyclic | extras/prot_filter.py:110-119 | a pass keeps the graph acyclic |
| VolfileFilter.CoreKept | extras/prot_filter.py:110-119 | a pass does not change what contracting the inserted objects gives |
| VolfileFilter.Contracted | extras/prot_filter.py:133-143 | contracting the filters of both passes gives back every translator's type, options and subvolume references |
| VolfileFilter.ClientChain | extras/prot_filter.py:133-143 | every original client is under exactly prot_client then trace, and its parents refer to the trace |
| VolfileFilter.DistributeChain | extras/prot_filter.py:133-143 | a distribute is under prot_dht alone, unchanged below |
| VolfileFilter.EarlierFilterChain | extras/prot_filter.py:141-143 | a prot_client that was there before is under trace alone, unchanged below |
| VolfileFilter.OthersStay | extras/prot_filter.py:133-143 | every other translator is as it was |
| VolfileFilter.UniqueIffFresh | extras/prot_filter.py:101-119 | names stay unique if and only if the generated names are fresh |
| VolfileProtect.BothAcyclic | extras/prot_filter.py:133-143 | both passes keep the graph acyclic |
| VolfileProtect.FilteredReadable | extras/prot_filter.py:100-119 | generated names and types can be printed and read |
| VolfileProtect.WrittenBack | extras/prot_filter.py:126-144 | the file written back loads as the filtered graph with the same root |
| VolfileProtect.StillReached | extras/prot_filter.py:133-144 | what the root reached it reaches through the filters |
| VolfileProtect.RunPasses | extras/prot_filter.py:126-143 | the passes over a loaded graph, each filtering exactly the dictionary's objects of a wanted type |
| VolfileProtect.ProtectFile | extras/prot_filter.py:121-144 | the whole script: load errors, nothing configured, or a file that for typed, uniquely named translators and fresh names loads as the filtered graph, whose contraction is the original below the same root; for every file the text written is the print of the graph after both passes |
| VolfileGraph.Graph.Delete | extras/volfilter.py:157-163 | in every translator of the dictionary each reference to the victim becomes one to its subvolume; refused unless it has exactly one |
| VolfileGraph.Graph.VolPushFilter | extras/volfilter.py:141-155 | volfilter.py's push, with the state it leaves when it raises half-way |
| VolfileFilter.VolPushedAs | extras/volfilter.py:141-155 | pushing c/d on a translator of type a/b: a name that ends in `-b` is kept and the filter ends in `-d` instead; otherwise both are appended; exact objects and dictionary |
| VolfileFilter.VolHalfPushedAs | extras/volfilter.py:141-152 | the names, objects and dictionary left when the filter's type has no slash |
| VolfileFilter.DeleteUndoesPush | extras/volfilter.py:141-163 | deleting a pushed filter gives every parent in the dictionary its content back; no reference to the filter is left if and only if all parents are still in the dictionary |
| VolfileFilter.PushKeepsEntries | extras/volfilter.py:150-155 | they are, if the new names are no other object's |
| Stripe.CopyChunk | extras/stripe-merge.c:372-384 | one read and write moves exactly the brick's next chunk |
| Stripe.CopyTurn | extras/stripe-merge.c:372-386 | the turn of a present brick writes the chunk whose turn it is, or the file is complete |
| Stripe.Turn | extras/stripe-merge.c:363-387 | a missing brick is skipped by one stripe; the loop invariant is kept |
| Stripe.GenerateCoalesce | extras/stripe-merge.c:351-391 | the loop ends and leaves the target with every surviving chunk written |
| StripeTheorems.CoalescedIsSplit | extras/stripe-merge.c:341-350 | a brick is in the coalesced format if and only if it is its chunks laid end to end |
| StripeTheorems.RecoveredByte | extras/stripe-merge.c:351-391 | every byte of a present brick is at its original offset, every other byte is the old target's or zero |
| StripeTheorems.RestoreLength | extras/stripe-merge.c:363-387 | exactly how far the target reaches |
| StripeTheorems.RecoveredFile | extras/stripe-merge.c:351-391 | with all bricks the original comes back, for every content, stripe size and count, followed by the old target's tail |
| StripeTheorems.SplitRecovers | extras/stripe-merge.c:351-391 | splitting any file in any geometry and recovering it gives the file back |
| StripeTheorems.OwnerIsRemainder | extras/stripe-merge.c:386-386 | the brick of an offset is its stripe number modulo the count |
| StripeTraditional.ReadBlocks | extras/stripe-merge.c:407-413 | one zero-padded block of every brick, and the longest read |
| StripeTraditional.OrBlocks | extras/stripe-merge.c:414-416 | the double loop computes the bytewise OR |
| StripeTraditional.GenerateTraditional | extras/stripe-merge.c:398-421 | the target gets the OR of all bricks as far as the longest reaches |
| StripeTraditional.OrBits | extras/stripe-merge.c:414-416 | a bit is set in the merge exactly if some brick has it, whatever the bricks hold |
| StripeTraditional.MergedByte | extras/stripe-merge.c:398-421 | every byte of a present brick is back, other bytes below the merged length are zero |
| StripeTraditional.MergedFile | extras/stripe-merge.c:398-421 | with all bricks, and zeros where a brick is not the owner, the original comes back |
| Disperse.BitTest | cli/src/cli-cmd-parser.c:273-274 | on words of any width `n & -n` is `n` exactly for the powers of two |
| Disperse.OptimalExists | cli/src/cli-cmd-parser.c:270-306 | an allowed redundancy that leaves a power of two exists exactly when the count is not a power of two |
| Disperse.Search | cli/src/cli-cmd-parser.c:271-274 | the loop finds the smallest one, which meets the bound, and fails exactly for powers of two |
| Disperse.ChooseRedundancy | cli/src/cli-cmd-parser.c:270-306 | what happens when no redundancy is given, for every answer of the user |
| Disperse.JudgeRedundancy | cli/src/cli-cmd-parser.c:296-312 | a given redundancy is accepted exactly within the bound and, unless the data count is a power of two, with the user's consent |
| Disperse.Check | cli/src/cli-cmd-parser.c:260-314 | the whole check |

## Left out

- Network calls, inode table internals other than linking, `loc_touchup`, dictionaries and I/O buffers: their answers are parameters.
- Fairness of threads and wake-ups of the condition variable: what is proved is that no state is stuck and that a migration makes boundedly many calls.
- `glfs_fini`, upcalls, asynchronous I/O and their descriptor references: separate lifetimes.
- Exact errno values of failed path walks: mid-path failures overwrite errno.
- Allocation failures in `graph_setup` and in the stripe loops: easy early returns.
- `list_del_init` is modelled as taking every occurrence of the descriptor off the list; a descriptor is on it at most once.
- Bricks, translators and descriptors are identified by position or number, not by address; translators that share one options dictionary after `push_filter` are modelled as values, so a later change through one of them is not seen through the other.
- `copy_stack` and `cleanup` of volfilter.py: meaningful only on trees, they would add easy members.
- GlfsObject.Glfs.DestroyFd: models the unlinking and the end of the fd, not the freeing of memory, because there is none in the model.
- VolfileGraph.Graph.GenerateAll: requires that nothing was dumped before, because the code never resets the flags.
- Stripe.GenerateCoalesce: requires that some brick was opened; without one the loop of the code does not end.
- Validation of stripe attributes and opening of files in stripe-merge.c: flat branching over attributes.
- The `disperse-data` combinations of the disperse check: flat branching.
- The remaining CLI parsers, management RPC, log analysers and examples: text, plumbing or I/O.

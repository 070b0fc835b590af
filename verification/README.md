# QEMU block layer and ciphers in Dafny

A model, with proofs, of the parts of QEMU's block layer that do the most intricate bookkeeping: the qcow2
image engine (copy-on-write, reference counts, snapshots, asynchronous writes, compressed pieces), the AES and
DES code behind encrypted images and VNC passwords, byte access over sector devices, VMDK's copy on first
write, and commit of an overlay into its backing image. `dafny verify dfyconfig.toml` checks everything.

## What is modelled

**The image engine** (`Qcow2Format` to `Qcow2Aio`). The host file is a map from cluster numbers to contents.
`Img` is the state of an open image: file, counts, active L1 table, snapshots. `Image` is the class whose methods
change it step by step. The invariant `Consistent` says what `check_refcounts` checks: every count is the
number of references found by walking the header, all L1 tables, the L2 tables and data behind each of them, the
snapshot table and the refcount metadata. It also says that the copied flags of the active tables are exact,
that no flag reachable from a snapshot is set on a shared cluster, and that one L1 table reaches each cluster at
most once.

The main result is `Image.Run`. Any sequence of writes, reads, snapshot creations, restores and deletions, however long,
leaves the image consistent, shows what a flat disk with a list of frozen disks would show, and returns the same
answers, as long as each operation finds room when it starts. `NewRun` says of a new image, without the
flat model, what each read gives: what was last written there, else what the backing disk holds, else zeros.
`Qcow2Check.CheckRefcounts` models `check_refcounts` itself, and `CleanIsLossless` ties it to the invariant.

**The refcount store** (`RefcountState` to `RefcountLink`). The table, the blocks and the one-block cache implement the
counts the engine works with, and allocate their own clusters through the functions that use them. The engine owns a
store and gets every count and every cluster from it. `Backs` is the link, and is part of `Image.Valid`.

The store may miscount runs that reach past what one refcount block covers (see below), so an operation has to find
room. Room is measured from the store as it is when the operation starts: `Need` and `Longest` say what the operation
may allocate, `RoomFor` that the clusters still free below some end of the file suffice for that and for longer refcount
tables, each run with a longer table in one block. A write to guest clusters that have their own data clusters needs
nothing and finds room always. `Image.Run` looks before each operation and stops at the first that finds none. A run
whose whole cost, `RunCost`, is to be had at the start goes on to its end.

**Ciphers** (`AesField` to `Sectors`, `Des`, `DesStandard`). The table-driven code is compared with FIPS 197, with CBC as
in section 6.2 of NIST SP 800-38A, and with FIPS 46-3. `AesStandard` words the rounds and the key expansion byte by
byte, `DesStandard` the permutations, the expansion and the key choices bit by bit. The S-box of AES is any byte
substitution with an inverse, and its tables follow the formulas at the head of `aes.c`; the tables of DES are any of
the right shape. `Sectors.EncryptedValid` hands the result to the image engine.

**The rest.** `Compressed` (pieces of compressed clusters and their descriptors), `ByteIo`, `Vmdk`, `Commit`.

## Where the code falls short of the plain claim

Each case but the last has an exact condition and a concrete input; the last is stated in full for every length.

- Restoring a snapshot loses count of clusters when the active L1 table, grown to at least as many entries, takes more
  clusters than that of the snapshot. The in-memory size changes at `MemCheck-qemu/block-qcow2.c:1637`, but the
  clusters of the longer table keep their counts. `Qcow2Flat.LosslessRun` is the condition over a whole run. From a new
  image it comes down to never restoring a table that takes fewer clusters (`Qcow2Loss.LossyIffShrinks`).
  `Qcow2Loss.LossyRestore` is a run that loses a cluster.
- A refcount block placed outside the region it covers leaves the block cache holding another block when the
  count is saved (`MemCheck-qemu/block-qcow2.c:1991-2008`). Counting one cluster goes well exactly when its region has a
  block or gets one inside itself (`RefcountTally.TallyCounted`). A run that takes several regions without a block
  comes out right exactly when it is `Safe` (`RefcountRuns.RunExact`): the blocks made for those regions follow the
  run, and must all lie in its last region, of which the run takes the first cluster. `Qcow2Fresh.WholeRegions`
  has a new image of 1637 GB in clusters of 4 KB: the L1 table has 838144 entries, and when it first grows, for a state
  of the machine saved behind the disk, its 2456 new clusters come out wrong. With 838145 entries they come out right.
- The id made up for a snapshot may be in use, once ids have reached the largest int. `SnapshotIds.NewIdFresh` says
  when, `SnapshotIds.NewIdClashes` shows two such ids.
- A first write to part of a VMDK grain loses the rest of it when a parent without a table for the grain hides an
  ancestor that holds it: reading goes on past that parent, copying stops there (`MemCheck-qemu/block-vmdk.c:528-532`).
  `Vmdk.UpdateIffAgree` is the condition, `Vmdk.ShortParentLoses` the input.
- Decrypting a length that is no multiple of 16 leaves the last block, decrypted but not mixed with the vector, as the
  vector, where encrypting leaves ciphertext (`Cbc.CbcDecrypt`).

## Modelling choices

- Offsets are cluster numbers. A table of several clusters is kept whole at its first cluster; its other clusters are
  marked, so overwriting one of them would show.
- The engine never looks into clusters of refcount metadata. Its copy of them is only marked as such; what they hold is
  kept by the store, which borrows the file to allocate.
- The budget and the limit on the file are ghost: they bound what the theorems speak of and change nothing. The source
  does not look for room; the look in `Image.Run` only marks where its theorem ends.
- `Compressed` keeps a count map of its own and is not tied to the refcount store.
- `get_cluster_offset` is two methods, one for each value of `allocate` that concerns uncompressed clusters.
- A snapshot pass writes every L2 table it visits, also when no flag changed.
- Input and output succeed. Counts stay within 0 to 0xffff: an image has fewer than 65535 snapshots.
- Words of `d3des.c` are 32 bits. On a 64-bit host the bits above never reach the output.
- The fields of a compressed descriptor are disjoint, so joining them is written as a sum.

## Model

| member | source | states |
|---|---|---|
| Qcow2Image.Image.Run | MemCheck-qemu/block-qcow2.c:700-1694 | every run, however long, keeps the image consistent and backed by its refcount store, shows what the flat model shows and answers what it answers, up to the first operation that finds no room in the store as it then is, or no count left for one more snapshot; no further cluster is lost if and only if that much is lossless; a run planned for goes on to its end |
| Qcow2Image.Image.Do | MemCheck-qemu/block-qcow2.c:700-1694 | each operation that finds room refines its flat counterpart and allocates no more than it needs; clusters are lost exactly when it restores a snapshot whose L1 table takes fewer clusters than the active one, grown to as many entries |
| Qcow2Image.NewRun | MemCheck-qemu/block-qcow2.c:714-792 | in a run from a new image, every read before the first restore gives what was last written to each sector, else what the backing disk holds, else zeros |
| Qcow2Image.Image.constructor | MemCheck-qemu/block-qcow2.c:1050-1140 | a new image is consistent, reads as its backing disk and as zero bytes past the end of that, and is backed by the store of a new file, with 2 bytes a count and 8 an address |
| Qcow2Image.Image.Write | MemCheck-qemu/block-qcow2.c:759-792 | the active disk changes in exactly the sectors written, no snapshot changes, all invariants hold again; where every guest cluster is private the refcount store is untouched |
| Qcow2Image.Image.WriteChunk | MemCheck-qemu/block-qcow2.c:766-790 | the same for the part in one guest cluster, with the L1 table grown just enough, and private guest clusters kept |
| Qcow2Image.Image.Read | MemCheck-qemu/block-qcow2.c:714-757 | each sector is decrypted from the cluster that maps it, else it is that of the backing disk, else 512 zero bytes; the L2 cache stays coherent |
| Qcow2Image.Image.GetClusterOffset | MemCheck-qemu/block-qcow2.c:496-579 | the cluster that the tables on disk give the byte offset of a guest sector, or 0, without changing the image |
| Qcow2Image.Image.GetClusterForWrite | MemCheck-qemu/block-qcow2.c:496-631 | the sectors to be written have a private cluster; all other sectors and disks read as before; private clusters stay where they are |
| Qcow2Image.Image.AllocateL2 | MemCheck-qemu/block-qcow2.c:517-547 | a missing or shared L2 table is replaced by a private copy and no disk changes |
| Qcow2Image.Image.AllocateLeaf | MemCheck-qemu/block-qcow2.c:576-631 | a missing or shared data cluster is replaced by a private one that reads the same outside the part to be written |
| Qcow2Image.Image.CopySectors | MemCheck-qemu/block-qcow2.c:369-392 | exactly the sectors asked for are filled with what the guest reads there, encrypted |
| Qcow2Image.Image.GrowL1Table | MemCheck-qemu/block-qcow2.c:427-481 | the table gets the size of the three-halves rule and keeps its entries, the references to its run move to the new run, other tables stay |
| Qcow2Image.Image.L2CacheNewEntry | MemCheck-qemu/block-qcow2.c:403-419 | a least used slot |
| Qcow2Image.Image.L2Load | MemCheck-qemu/block-qcow2.c:552-571 | the slot holds the table on disk; slots stay distinct and coherent through hits, halving and eviction |
| Qcow2Image.Image.UpdateSnapshotRefcount | MemCheck-qemu/block-qcow2.c:1250-1363 | every cluster of the table's paths is counted up, down or left, once per path, and all flags of the table are made exact |
| Qcow2Image.Image.WalkTable | MemCheck-qemu/block-qcow2.c:1298-1336 | the entries of one L2 table are visited and it is rewritten with its final flags |
| Qcow2Image.Image.SnapshotCreate | MemCheck-qemu/block-qcow2.c:1548-1616 | the new snapshot reads as the active disk, everything else is unchanged; a used id is refused with the image untouched |
| Qcow2Image.Image.SnapshotGoto | MemCheck-qemu/block-qcow2.c:1619-1659 | the snapshot is the first with that id, else the first with that name; the active disk then reads as it did; snapshots are unchanged; clusters are lost exactly when the active table, grown to as many entries, takes another number of clusters; -ENOENT if there is none |
| Qcow2Image.Image.SnapshotDelete | MemCheck-qemu/block-qcow2.c:1661-1694 | the first snapshot with that id, else the first with that name, is gone, every other disk reads as before, flags of the active tables are exact again; -ENOENT if there is none |
| Qcow2Image.Image.WriteSnapshots | MemCheck-qemu/block-qcow2.c:1435-1502 | the stored snapshot table moves to a fresh run of the least length that holds its bytes and the old run is freed |
| Qcow2Image.Image.FindSnapshot | MemCheck-qemu/block-qcow2.c:1532-1545 | the first snapshot with that id, else the first with that name, else -1 |
| Qcow2Image.Image.FindSnapshotById | MemCheck-qemu/block-qcow2.c:1520-1530 | the first snapshot with that id, else -1 |
| Qcow2Image.Image.FindNewSnapshotId | MemCheck-qemu/block-qcow2.c:1504-1518 | it reads back as one more than the largest number read from an id, and is the least int past the largest int |
| SnapshotIds.NewIdFresh | MemCheck-qemu/block-qcow2.c:1504-1518 | the made-up id is in use if and only if the largest id is the largest int and the id -2147483648 is in use |
| SnapshotIds.NewIdNext | MemCheck-qemu/block-qcow2.c:1504-1518 | the new id, printed and read back, is the number after the largest |
| SnapshotIds.StrtoulIs | MemCheck-qemu/block-qcow2.c:1512-1512 | spaces, a sign and digits read as strtoul reads them, out of range and negative numbers included |
| SnapshotIds.NewIdClashes | MemCheck-qemu/block-qcow2.c:1504-1518 | two ids for which the made-up id is in use |
| Qcow2Image.Image.AllocClusters | MemCheck-qemu/block-qcow2.c:1826-1833 | a run of unused clusters is counted once each by the store; the metadata made on the way lies outside it and overwrites nothing in use; a run of none moves the search position alone |
| Qcow2Image.Image.FreeClusters | MemCheck-qemu/block-qcow2.c:1875-1879 | each cluster of a run loses one reference, and the search position is again at or before every region without a block |
| Qcow2Image.Image.UpdateClusterRefcount | MemCheck-qemu/block-qcow2.c:2000-2013 | one count of a cluster in use changes, in the store and for the engine, or -EINVAL and nothing changes when it would leave 0 to 0xffff |
| Qcow2Grow.SwapMoves | MemCheck-qemu/block-qcow2.c:546-548 | giving back a shared cluster and allocating another moves exactly one reference |
| Qcow2Steps.L2Step | MemCheck-qemu/block-qcow2.c:517-547 | relinking an L1 entry to a private copy keeps the invariant and every disk |
| Qcow2Steps.LeafStep | MemCheck-qemu/block-qcow2.c:576-631 | relinking an L2 entry keeps the invariant, changes that guest cluster alone and no snapshot |
| Qcow2Steps.DataStep | MemCheck-qemu/block-qcow2.c:591-594 | writing in place through flagged entries changes that guest cluster alone and is seen through no snapshot |
| Qcow2Pass.PassUp | MemCheck-qemu/block-qcow2.c:1250-1363 | counting a table once more keeps exact counts, safe flags and what every table reads as |
| Qcow2Pass.PassDown | MemCheck-qemu/block-qcow2.c:1250-1363 | dropping a table's references keeps the invariant for the tables left |
| Qcow2Pass.PassZero | MemCheck-qemu/block-qcow2.c:1676-1679 | a pass that changes no count makes the flags of its table exact |
| Qcow2Walk.WalkIsPass | MemCheck-qemu/block-qcow2.c:1276-1344 | the interleaved updates of the walk add up to one pass, with flags from final counts |
| Qcow2Snap.CreateStep | MemCheck-qemu/block-qcow2.c:1580-1604 | pass and copied table together give a consistent image with one more snapshot |
| Qcow2Snap.GotoUp | MemCheck-qemu/block-qcow2.c:1637-1649 | counting the snapshot's table as the active one makes the active disk read as the snapshot |
| Qcow2Snap.OverlaidAll | MemCheck-qemu/block-qcow2.c:1634-1646 | overwriting the L1 table loses clusters if and only if the numbers of clusters differ |
| Qcow2Snap.DeleteStep | MemCheck-qemu/block-qcow2.c:1672-1684 | both passes and the freed run together give a consistent image without the snapshot |
| Qcow2Snap.ReachedBound | MemCheck-qemu/block-qcow2.c:2003-2004 | a cluster on some path is counted at most once per L1 table, so counts stay in range |
| Qcow2Snap.SnapRecord | MemCheck-qemu/block-qcow2.c:1445-1454 | each record of the snapshot table starts at a multiple of 8 and takes a 40-byte header and two strings |
| Qcow2Snap.L1ClustersHold | MemCheck-qemu/block-qcow2.c:446-455 | an L1 table takes the least number of clusters that hold 8 bytes an entry |
| Qcow2Write.GrownTwice | MemCheck-qemu/block-qcow2.c:436-441 | growing in steps gives the same size as growing at once |
| Qcow2Grow.GrownFirst | MemCheck-qemu/block-qcow2.c:436-441 | the new size is the first, growing by one half, that is large enough |
| Qcow2Cost.WriteNeedThen | MemCheck-qemu/block-qcow2.c:759-792 | what a write may allocate is what its first guest cluster may and what the rest then may |
| Qcow2Cost.PrivatePath | MemCheck-qemu/block-qcow2.c:517-548 | in a consistent image a private data cluster is reached through a private L2 table, so writing there allocates nothing |
| Qcow2Cost.NeedBound | MemCheck-qemu/block-qcow2.c:700-1694 | what an operation may allocate is bounded by the flat model alone |
| Qcow2Cost.L1CostThen | MemCheck-qemu/block-qcow2.c:436-441 | growing the L1 table in steps costs the same as at once |
| Qcow2Flat.WriteView | MemCheck-qemu/block-qcow2.c:759-792 | a write is a flat overwrite |
| Qcow2Flat.CreateView | MemCheck-qemu/block-qcow2.c:1548-1616 | a creation freezes the active disk |
| Qcow2Flat.GotoView | MemCheck-qemu/block-qcow2.c:1619-1659 | a restore copies the frozen disk |
| Qcow2Flat.DeleteView | MemCheck-qemu/block-qcow2.c:1661-1694 | a deletion drops one frozen disk |
| Qcow2Loss.LossyIffShrinks | MemCheck-qemu/block-qcow2.c:1630-1650 | from a new image on, a run loses clusters if and only if it restores a table that takes fewer clusters than the active one |
| Qcow2Loss.LossyRestore | MemCheck-qemu/block-qcow2.c:1630-1650 | a snapshot, a write that makes the table grow, and a restore lose a cluster |
| Qcow2Loss.GrownDecides | MemCheck-qemu/block-qcow2.c:1630-1650 | what counts is the active table once it has grown: equal numbers of clusters before may lose, unequal ones may not |
| Qcow2Check.CheckRefcounts | MemCheck-qemu/block-qcow2.c:2153-2204 | no error is reported if and only if the recount, with every block the refcount table lists, fits, equals every stored count and the active flags are exact |
| Qcow2Check.CheckL1 | MemCheck-qemu/block-qcow2.c:2065-2151 | the tally grows by exactly the table's run and its paths, and stays free of errors if and only if these fit and, where asked, the flags are exact |
| Qcow2Check.IncRun | MemCheck-qemu/block-qcow2.c:2038-2063 | the tally grows by the run, and stays free of errors if and only if every cluster is in range and counted at most 0xffff times |
| Qcow2Check.AllSetAt | MemCheck-qemu/block-qcow2.c:2153-2195 | the walk counts the invariant's references, lost clusters apart |
| Qcow2Check.CleanIsLossless | MemCheck-qemu/block-qcow2.c:2153-2204 | a consistent image within its file, whose counts the store holds, passes the check if and only if no cluster has been lost |
| Qcow2Aio.Interleave | MemCheck-qemu/block-qcow2.c:923-1000 | whatever the schedule, each of several writes to disjoint sectors finishes exactly once given turns enough, and when all have finished the disk and the snapshots are those of running the writes one by one; four clusters of the file for each guest cluster suffice, and what the L1 table needs |
| Qcow2Aio.Callback | MemCheck-qemu/block-qcow2.c:923-983 | a callback brings its request nearer to its end and keeps what every request has written, what none has touched and all snapshots |
| Qcow2Aio.Land | MemCheck-qemu/block-qcow2.c:975-979 | a host write that lands, however late, keeps the same: its cluster is still private to the active disk |
| Qcow2Aio.Issue | MemCheck-qemu/block-qcow2.c:948-957 | the next segment stays in one guest cluster and gets a private host cluster |
| Qcow2Aio.AllDone | MemCheck-qemu/block-qcow2.c:941-946 | when all requests have finished, the disk is that of the sequential run |
| RefcountStore.RefcountStore.constructor | MemCheck-qemu/block-qcow2.c:1087-1113 | the store of a new image is ready, with one count for each cluster in use |
| RefcountStore.RefcountStore.GetRefcount | MemCheck-qemu/block-qcow2.c:1776-1796 | the count the tables on disk hold, whatever block was cached |
| RefcountStore.RefcountStore.AllocClustersNoref | MemCheck-qemu/block-qcow2.c:1799-1824 | for a run of one or more, the first free run from the search position on; for none, the position after the next free cluster |
| RefcountStore.RefcountStore.UpdateClusterRefcount | MemCheck-qemu/block-qcow2.c:1953-2013 | -EINVAL and no change out of range; a release changes one count; counting keeps the store right if and only if the region has a block or gets one inside itself |
| RefcountStore.RefcountStore.UpdateMissing | MemCheck-qemu/block-qcow2.c:1973-1991 | makes a block, counts it by the same steps, then saves the count through whatever block is cached |
| RefcountStore.RefcountStore.CountRun | MemCheck-qemu/block-qcow2.c:2016-2035 | a run is counted cluster by cluster; where the table has to grow, counts follow the metadata as it comes and goes |
| RefcountStore.RefcountStore.ReleaseRun | MemCheck-qemu/block-qcow2.c:2016-2035 | each cluster of a run loses one reference and nothing else changes |
| RefcountStore.RefcountStore.GrowRefcountTable | MemCheck-qemu/block-qcow2.c:1881-1949 | no count changes except those of the old table, the new table and new blocks |
| RefcountStore.RefcountStore.AllocClusters | MemCheck-qemu/block-qcow2.c:1826-1833 | a first-fit run of free clusters is counted; it comes out right, with the store ready again and metadata outside the run, if and only if the run is safe; a run that fits in one region is safe |
| RefcountStore.RefcountStore.FreeClusters | MemCheck-qemu/block-qcow2.c:1875-1879 | each cluster of a run loses one reference; the store is ready again |
| RefcountTally.TallyCounted | MemCheck-qemu/block-qcow2.c:1953-2013 | while the table need not grow, counting a cluster keeps the store right if and only if its region has a block or gets one inside itself, wherever blocks for blocks may stray |
| RefcountTally.AstrayFails | MemCheck-qemu/block-qcow2.c:1973-2008 | a block that strays leaves a wrong count or a cache ahead of its block |
| RefcountTally.TallyKeeps | MemCheck-qemu/block-qcow2.c:1953-2013 | whatever strays, blocks stay, no other count changes and the cache is never behind its block |
| RefcountRuns.RunExact | MemCheck-qemu/block-qcow2.c:2016-2035 | a freshly allocated run over several regions without a block comes out right if and only if the blocks fit behind it in its last region, of which it takes the first cluster |
| RefcountRuns.StraySelf | MemCheck-qemu/block-qcow2.c:1971-2008 | a block that lands on the first cluster of a region that gets its own block next makes the count 2 |
| Qcow2Fresh.WholeRegions | MemCheck-qemu/block-qcow2.c:427-455 | the first growth of the L1 table in a new 4 KB image of 838144 entries is a first-fit run of 2456 clusters that comes out wrong; with 838145 entries it is safe |
| RefcountRoom.HasRoomIs | MemCheck-qemu/block-qcow2.c:1799-1833 | the look for room finds it if and only if some end of the file leaves enough clusters, longer refcount tables included |
| RefcountRoom.RoomAlloc | MemCheck-qemu/block-qcow2.c:1826-1833 | an allocation of n clusters uses up n + 1 of the budget; longer tables come out of what was set aside |
| RefcountRoom.RoomFits | MemCheck-qemu/block-qcow2.c:1881-1949 | while there is room, an ample run and a longer table fit in one region |
| RefcountSteps.AllocCountable | MemCheck-qemu/block-qcow2.c:1799-1833 | while a run and a longer table fit together in what a block covers, every block made for the run lies in its own region |
| RefcountSteps.GrowEvolves | MemCheck-qemu/block-qcow2.c:1930-1943 | from old table to new, counts follow the metadata |
| RefcountSteps.GrownClustersFirst | MemCheck-qemu/block-qcow2.c:1894-1906 | the new refcount table is the first, growing by one half, that is long enough |
| RefcountLink.StoreAllocates | MemCheck-qemu/block-qcow2.c:1826-1833 | an allocation by the store, on the file it borrowed, is what the image engine asks for |
| RefcountLink.StoreFrees | MemCheck-qemu/block-qcow2.c:1875-1879 | a free by the store leaves it backing the engine, each count of the run one less |
| RefcountLink.StoreRecounts | MemCheck-qemu/block-qcow2.c:2000-2013 | a count changed in a snapshot pass leaves the store backing the engine |
| RefcountLink.LentReady | MemCheck-qemu/block-qcow2.c:1799-1833 | whatever the engine has written outside the metadata, the store backs it on the borrowed file |
| Qcow2Fresh.FreshBacks | MemCheck-qemu/block-qcow2.c:1087-1113 | the store of a new image backs it |
| Compressed.ByteAllocator.AllocBytes | MemCheck-qemu/block-qcow2.c:1837-1873 | a piece goes in the room left, or across into the next cluster when that is the first free one, or at the start of the first free one; pieces stay pairwise disjoint and every count equals its base plus the pieces touching the cluster |
| Compressed.Spills | MemCheck-qemu/block-qcow2.c:1858-1866 | a piece across two adjacent clusters keeps disjointness and exact counts |
| Compressed.FitsCurrent | MemCheck-qemu/block-qcow2.c:1847-1856 | so does one in the room left |
| Compressed.FitsFresh | MemCheck-qemu/block-qcow2.c:1844-1870 | so does one at the start of a fresh cluster |
| Compressed.DescribeDecodes | MemCheck-qemu/block-qcow2.c:616-623 | for every cluster size and every offset that fits the field, offset and sector count come back from the descriptor |
| Compressed.DescribeLayout | MemCheck-qemu/block-qcow2.c:616-623 | the flag is bit 62, the sector count takes cluster_bits - 8 bits below it, the offset the rest |
| Compressed.DescribeCovers | MemCheck-qemu/block-qcow2.c:582-590 | the sectors named hold the piece, fit the buffer and touch exactly the clusters counted |
| AesField.InvMixMix | MemCheck-qemu/aes.c:52-63 | the inverse matrix undoes MixColumns |
| AesField.InvMixLinear | MemCheck-qemu/aes.c:861-884 | InvMixColumns distributes over adding a round key |
| AesTables.TeRoundIs | MemCheck-qemu/aes.c:987-1042 | four lookups per column are SubBytes, ShiftRows, MixColumns and AddRoundKey |
| AesTables.TdRoundIs | MemCheck-qemu/aes.c:1178-1233 | four lookups per column are a round of the equivalent inverse cipher |
| AesTables.TeLastIs | MemCheck-qemu/aes.c:1044-1075 | the masked lookups are the last round |
| AesTables.TdLastIs | MemCheck-qemu/aes.c:1235-1266 | the masked lookups are the last inverse round |
| AesCode.Encrypt | MemCheck-qemu/aes.c:891-1076 | equals the cipher of section 5.1 of FIPS 197 for any even number of rounds, round key r being words 4r to 4r + 3 |
| AesCode.Decrypt | MemCheck-qemu/aes.c:1082-1267 | equals the equivalent inverse cipher of section 5.3.5 of FIPS 197 for any even number of rounds, round key r being words 4r to 4r + 3 |
| AesStandard.RoundAt | MemCheck-qemu/aes.c:987-1042 | byte (r, c) after a round is row r of the matrix times the substituted bytes of the shifted column, plus the key byte |
| AesStandard.EndsAt | MemCheck-qemu/aes.c:902-1075 | the first key addition and the last round, byte by byte |
| AesStandard.BlockAt | MemCheck-qemu/aes.c:903-910 | the block fills the state column by column |
| AesStandard.XTimeReduces | MemCheck-qemu/aes.c:52-63 | multiplication by x is a shift, reduced by 0x1b |
| AesStandard.ExpandedAt | MemCheck-qemu/aes.c:765-833 | byte r of word i of the expanded key, from words i - Nk and i - 1, with rotation, substitution and round constant written out |
| AesStandard.UserKeyAt | MemCheck-qemu/aes.c:757-760 | the first words are the bytes of the key |
| AesCipher.InvCipherCipher | MemCheck-qemu/aes.c:1082-1267 | the inverse cipher under the transformed keys undoes the cipher, whatever the round keys |
| AesKeys.SetEncryptKey | MemCheck-qemu/aes.c:737-833 | for 128, 192 and 256 bits the schedule is the key expansion of section 5.2 of FIPS 197; -1 for null pointers, -2 for other sizes |
| AesKeys.SetDecryptKey | MemCheck-qemu/aes.c:838-884 | the round keys of the expanded key are reversed, with all but the outer ones through InvMixColumns; -1 and -2 as for encryption |
| AesKeys.UnmixIs | MemCheck-qemu/aes.c:861-884 | the double lookup is InvMixColumns |
| AesKeys.RoundTrip | MemCheck-qemu/aes.c:737-1267 | for every key and block encryption is the cipher under the expanded key, column j of round key r being word 4r + j, and decryption undoes it |
| Cbc.CbcEncrypt | MemCheck-qemu/aes.c:1281-1302 | equals CBC encryption for every length, and leaves the last ciphertext block as vector |
| Cbc.CbcDecrypt | MemCheck-qemu/aes.c:1303-1320 | equals CBC decryption for every length; says exactly what vector is left |
| Cbc.CbcInPlace | MemCheck-qemu/aes.c:1271-1320 | in place, whole blocks come out as with separate buffers |
| Cbc.DecryptedEncrypted | MemCheck-qemu/aes.c:1271-1320 | CBC decryption undoes CBC encryption for every length |
| Cbc.ChainAt | MemCheck-qemu/aes.c:1281-1302 | every block of ciphertext is the cipher of its plaintext block mixed with the ciphertext block before it |
| Cbc.MixedAt | MemCheck-qemu/aes.c:1291-1296 | bytes that the last block lacks count as zeros |
| Sectors.EncryptSectors | MemCheck-qemu/block-qcow2.c:347-367 | a run of sectors is encrypted sector by sector, each under its own number |
| Sectors.VectorIs | MemCheck-qemu/block-qcow2.c:359-360 | the vector is the sector number modulo 2^64, lowest byte first, then zeros |
| Sectors.PartRoundTrip | MemCheck-qemu/block-qcow2.c:347-367 | any run of sectors decrypts to what was written, however the writes were batched |
| Sectors.EncryptedValid | MemCheck-qemu/block-qcow2.c:347-367 | an encrypted image meets what the image engine asks of a sector cipher |
| Sectors.AesValid | MemCheck-qemu/aes.c:891-1267 | AES is a block cipher that can be undone |
| ByteIo.SectorDevice.Pread | MemCheck-qemu/block.c:569-611 | a read is a slice of the device's bytes; -EIO if and only if it is not empty and passes the end |
| ByteIo.SectorDevice.Pwrite | MemCheck-qemu/block.c:613-659 | after a write each byte of the range is that of the buffer and every other is as before; -EIO if and only if the range is not empty and passes the end, and then the same holds for a proper prefix |
| ByteIo.SectorDevice.ReadBack | MemCheck-qemu/block.c:569-659 | what was written reads back |
| Vmdk.VmdkImage.Write | MemCheck-qemu/block-vmdk.c:651-695 | a write is a sector update of the old view if and only if both lookups through the parents agree on the rest of every missing grain; otherwise that rest is what the copy found; the parents stay as they are, both grain tables stay equal; -1 exactly when a grain has no table or the start is out of range, and then the sectors before that grain, or none, have been written |
| Vmdk.UpdateIffAgree | MemCheck-qemu/block-vmdk.c:651-695 | a write changes just the sectors written if and only if both lookups agree on what it leaves of missing grains |
| Vmdk.CopiedUnlessCut | MemCheck-qemu/block-vmdk.c:465-598 | the copying lookup finds what reading finds, unless an ancestor without a table comes first |
| Vmdk.UncutAgrees | MemCheck-qemu/block-vmdk.c:465-598 | where no ancestor without a table comes first, every write is a sector update |
| Vmdk.ShortParentLoses | MemCheck-qemu/block-vmdk.c:527-532 | a parent with a short directory makes a write of one sector lose the next |
| Vmdk.ReadChain | MemCheck-qemu/block-vmdk.c:616-649 | each grain from its own file, else from the parent, else zeros, is the view of the chain |
| Vmdk.ViewNearest | MemCheck-qemu/block-vmdk.c:616-649 | the view of the chain is that of the nearest image that lists a grain, found by counting grains and tables |
| Vmdk.MaskIsMod | MemCheck-qemu/block-vmdk.c:669-669 | the mask of the write path is the remainder for a grain size that is a power of two |
| Vmdk.VmdkImage.WriteGrain | MemCheck-qemu/block-vmdk.c:496-598 | the same for one grain, missing or not |
| Vmdk.VmdkImage.GetWholeCluster | MemCheck-qemu/block-vmdk.c:465-494 | the grain of the nearest ancestor that holds it, unless one without a table comes first; else zeros |
| Vmdk.VmdkImage.Read | MemCheck-qemu/block-vmdk.c:616-649 | every sector is that of the nearest image of the chain that lists a grain for it, else zeros |
| Vmdk.AppendedSets | MemCheck-qemu/block-vmdk.c:558-591 | appending a grain changes that grain alone and keeps grains distinct |
| Commit.BdrvCommit | MemCheck-qemu/block.c:457-497 | after success the backing image alone supplies the unchanged guest disk, allocated sectors from the overlay's clusters and all others as before, and the overlay holds nothing; each refusal has its code |
| Commit.CommitAll | MemCheck-qemu/block.c:473-489 | the loop always advances and copies exactly the allocated sectors |
| Commit.IsAllocated | MemCheck-qemu/block-qcow.c:381-395 | whether both tables lead to a cluster for the sector, and how many sectors up to nb_sectors share that cluster |
| Des.DesFunc | MemCheck-qemu/d3des.c:321-393 | eight double rounds between the swaps are sixteen Feistel rounds between the permutations |
| Des.DesKey | MemCheck-qemu/d3des.c:66-121 | both schedules hold the same sixteen keys, in opposite order for deciphering |
| Des.KeyBitMirrored | MemCheck-qemu/d3des.c:38-75 | the key bits are those of the standard, for a key whose bytes are mirrored |
| Des.InitialFinal | MemCheck-qemu/d3des.c:327-391 | the opening swaps undo the closing ones, halves exchanged |
| Des.CipherUndone | MemCheck-qemu/d3des.c:321-393 | the reversed keys undo the cipher |
| DesStandard.InitialAt | MemCheck-qemu/d3des.c:327-344 | the opening swaps are the initial permutation of FIPS 46-3, each half turned left by one |
| DesStandard.RoundKeyIs | MemCheck-qemu/d3des.c:66-121 | the six key bits of each box are those the permuted choices pick after the rotation of the round |
| DesStandard.RoundIs | MemCheck-qemu/d3des.c:347-360 | every box gets the six bits that the expansion of FIPS 46-3 picks from the half, added to its six key bits |
| DesStandard.CipherIs | MemCheck-qemu/d3des.c:321-393 | the cipher is sixteen such rounds between the initial permutation and its inverse |
| DesStandard.RoundTrip | MemCheck-qemu/d3des.c:141-175 | for every key and block enciphering is that of FIPS 46-3 under a key with mirrored bytes, and deciphering undoes it |

## Left out

- Qcow2Image.Image.Run: what follows an operation that finds no room, for instance one that asks for a run of clusters too long for one refcount block, is not covered; the store may then miscount.
- Qcow2Image.NewRun: reads after a restore are covered by the flat model of `Image.Run` only.
- Qcow2Image.Image.AllocClusters: runs that with a longer refcount table do not fit in one block are covered by the store's own theorems only.
- RefcountStore.RefcountStore.UpdateClusterRefcount: strays that make the refcount table grow on the way, and giving up the last reference of a metadata cluster, are not covered.
- RefcountStore.RefcountStore.GrowRefcountTable: only growth from a search position in the region that lacks an entry, with the longer table ending there, is covered; allocation meets this.
- RefcountStore.RefcountStore.AllocClusters: a run that takes several regions without a block and makes the refcount table grow is not covered.
- RefcountStore.RefcountStore.constructor: an L1 table that needs more clusters than the one initial block counts is not covered; the source writes past that block.
- Qcow2Image.Image.SnapshotCreate: the failure half way through when a count would pass 0xffff is excluded by the bound on snapshots.
- Compressed.ByteAllocator.AllocBytes: frees in between, after which the current piece position is stale, and a current cluster already counted 0xffff times are not covered.
- Vmdk.VmdkImage.Write: unequal grain sizes along the chain, the table cache and content ids are not modelled.
- Commit.BdrvCommit: compressed and encrypted clusters of the overlay are not modelled.
- Compressed clusters inside the image engine, and the decompressed-cluster cache; zlib is a foreign library.
- Qcow2Aio.Interleave: getting a cluster is one atomic step, as in the source's single thread; no snapshot operation runs while a write is in flight.
- Emptying an overlay truncates its file and resets its cache; only its L1 table is modelled.
- I/O errors, the header's fields, reading the snapshot table back on open, and reopening after a restore with another L1 size.
- Asynchronous reads, cancellation, and the emulation of asynchronous calls.
- The contents of the AES and DES tables: any S-box with an inverse, any DES tables of the right shape will do.
- Other image formats, raw devices, the CPU emulator, consoles and disassemblers: these would add only easier members.

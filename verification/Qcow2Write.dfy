/** What each stage of a guest write leaves behind. */
module Qcow2Write {
  import opened Arith
  import opened Qcow2Format
  import opened Qcow2State
  import opened Qcow2Relink
  import opened Qcow2Steps
  import opened Qcow2Grow
  import opened Qcow2Guest

  /** The active root is the first of the counted ones. */
  lemma ActiveRoot(g: Geometry, s: Img)
    requires Consistent(g, s)
    ensures |Roots(s)| > 0 && Roots(s)[0] == s.l1 && RootOK(g, s.d, s.cnt, s.l1) && RootInj(s.d, s.l1)
    ensures Sound(g, s, Roots(s))
  {
    assert Roots(s)[0] == s.l1;
  }

  /** After giving back one reference to a shared cluster, refcount metadata is still counted. */
  lemma MetaAfterFree(g: Geometry, s: Img, s1: Img, from: nat)
    requires Consistent(g, s) && s1 == s.(cnt := s1.cnt) && Freed(s.cnt, s1.cnt, from, B(from != 0))
    requires from != 0 ==> CountOf(s.cnt, from) >= 2
    ensures forall c :: c in s1.meta ==> CountOf(s1.cnt, c) > 0 && c in s1.d && s1.d[c].Refcounting()
  {
    MetaCounted(g, s, Roots(s));
    forall c | c in s1.meta ensures CountOf(s1.cnt, c) > 0 {
      assert CountOf(s1.cnt, c) + B(InRun(from, B(from != 0), c)) == CountOf(s.cnt, c);
    }
  }

  lemma BoundedMoved(s: Img, s1: Img, s2: Img, from: nat, at: nat)
    requires Swapped(s, s1, s2, from, at) && Bounded(s)
    ensures Bounded(s2)
  {
    forall c: nat ensures CountOf(s2.cnt, c) <= MAX_COUNT {
      assert CountOf(s1.cnt, c) + B(InRun(from, B(from != 0), c)) == CountOf(s.cnt, c);
    }
  }

  /** The cache survives when one reference moves away from a shared cluster and `except` is not cached. */
  lemma CoherentSwap(g: Geometry, s: Img, s': Img, from: nat, to: nat, cache: L2Cache, except: set<nat>)
    requires OwnShape(g, s) && Coherent(s.d, s.cnt, cache) && Kept(s, s'.d, except) && Moved(s, s', from, to)
    requires from != 0 ==> CountOf(s.cnt, from) >= 2
    requires forall x :: 0 <= x < L2_CACHE_SIZE && cache.offsets[x] != 0 ==> cache.offsets[x] !in except
    ensures Coherent(s'.d, s'.cnt, cache) && (to != 0 ==> to !in cache.offsets)
  {
    forall x | 0 <= x < L2_CACHE_SIZE && cache.offsets[x] != 0 ensures CountOf(s'.cnt, cache.offsets[x]) > 0 {
      StillCounted(s, s', from, to, cache.offsets[x]);
    }
    CoherentKept(g, s, s', cache, except);
  }

  // ---------- A private L2 table ----------

  lemma CachedNotL1(g: Geometry, s: Img, cache: L2Cache)
    requires OwnShape(g, s) && Coherent(s.d, s.cnt, cache)
    ensures forall x :: 0 <= x < L2_CACHE_SIZE && cache.offsets[x] != 0 ==> cache.offsets[x] !in {s.l1At}
  {
  }

  lemma L2CacheAfter(g: Geometry, s: Img, s': Img, i: nat, at: nat, cache: L2Cache)
    requires Consistent(g, s) && Coherent(s.d, s.cnt, cache) && L2Relinked(g, s, s', i, at)
    ensures Coherent(s'.d, s'.cnt, cache) && at !in cache.offsets && at != 0 && CountOf(s'.cnt, at) > 0
  {
    ActiveRoot(g, s);
    L1EntryShared(g, s, i);
    FreshNonzero(g, s, Roots(s), at);
    L2CacheCore(g, s, s', Roots(s), i, at, cache);
  }

  lemma L2CacheCore(g: Geometry, s: Img, s': Img, roots: seq<seq<Entry>>, i: nat, at: nat, cache: L2Cache)
    requires Sound(g, s, roots) && |roots| > 0 && roots[0] == s.l1 && at != 0
    requires Coherent(s.d, s.cnt, cache) && L2Relinked(g, s, s', i, at)
    requires s.l1[i].cluster != 0 ==> CountOf(s.cnt, s.l1[i].cluster) >= 2
    ensures Coherent(s'.d, s'.cnt, cache) && at !in cache.offsets && CountOf(s'.cnt, at) > 0
  {
    CachedNotL1(g, s, cache);
    CoherentSwap(g, s, s', s.l1[i].cluster, at, cache, {s.l1At});
    FreshCount(g, s, s', roots, i, at);
  }

  /** Everything after an L2 table was allocated for active L1 entry i. */
  lemma L2All(g: Geometry, s: Img, s1: Img, s2: Img, i: nat, at: nat, cache: L2Cache)
    requires Consistent(g, s) && Coherent(s.d, s.cnt, cache) && Bounded(s)
    requires i < |s.l1| && !s.l1[i].copied && Swapped(s, s1, s2, s.l1[i].cluster, at)
    ensures s2.l1At in s2.d && s2.d[s2.l1At].L1Head? && i < |s2.d[s2.l1At].entries|
    ensures TableOf(g, s2.d, s.l1[i]) == TableOf(g, s.d, s.l1[i])
    ensures var s' := LinkL2(g, s2, i, at, TableOf(g, s.d, s.l1[i]));
      && Consistent(g, s') && SameActiveDisk(g, s, s') && SameSnapDisks(g, s, s') && Bounded(s')
      && Coherent(s'.d, s'.cnt, cache) && at !in cache.offsets && at != 0 && CountOf(s'.cnt, at) > 0
  {
    L2FromAlloc(g, s, s1, s2, i, at);
    var s' := LinkL2(g, s2, i, at, TableOf(g, s.d, s.l1[i]));
    L2Step(g, s, s', i, at);
    L2CacheAfter(g, s, s', i, at, cache);
    BoundedMoved(s, s1, s2, s.l1[i].cluster, at);
    if s.l1[i].cluster != 0 {
      L1EntryShared(g, s, i);
      SwapMoves(s, s1, s2, s.l1[i].cluster, at);
      TableAfterSwap(g, s, s2, i);
    }
  }

  // ---------- Reading while a new data cluster is filled ----------

  /** Everything reading relies on. */
  ghost predicate CanRead(g: Geometry, s: Img, cache: L2Cache) {
    && g.Valid() && Coherent(s.d, s.cnt, cache) && RootShape(g, s.d, s.l1)
    && forall i :: 0 <= i < |s.l1| && s.l1[i].cluster != 0 ==> CountOf(s.cnt, s.l1[i].cluster) > 0
  }

  lemma ConsistentCanRead(g: Geometry, s: Img, cache: L2Cache)
    requires g.Valid() && Consistent(g, s) && Coherent(s.d, s.cnt, cache)
    ensures CanRead(g, s, cache)
  {
    ActiveRoot(g, s);
    forall i | 0 <= i < |s.l1| && s.l1[i].cluster != 0 ensures CountOf(s.cnt, s.l1[i].cluster) > 0 {
      PathLeaf(s.d, s.l1, i, 0);
      ReachedIsCounted(g, s, Roots(s), 0, s.l1[i].cluster);
    }
  }

  lemma ByteIndex(g: Geometry, k: nat)
    ensures var offset, size := 512 * k, 512 * g.cs;
      size / 8 == g.L2Size() && offset / size == k / g.cs && offset / size / (size / 8) == L1Index(g, k)
  {
    DivDiv(512 * k, 512, g.cs);
    DivDiv(k, g.cs, g.L2Size());
  }

  /** c is the cluster that the tables on disk give the bytes of sector k, or 0. An L2 table fills a cluster, at 8 bytes
      an entry, and each entry maps a cluster. */
  predicate Resolved(g: Geometry, s: Img, k: nat, c: nat) {
    ByteIndex(g, k);
    var offset, size := 512 * k, 512 * g.cs;
    var i, j := offset / size / (size / 8), offset / size % (size / 8);
    if i < |s.l1| && s.l1[i].cluster != 0 then
      && s.l1[i].cluster in s.d && s.d[s.l1[i].cluster].Table? && j < |s.d[s.l1[i].cluster].entries|
      && c == s.d[s.l1[i].cluster].entries[j].cluster
    else c == 0
  }

  lemma LookupResolved(g: Geometry, s: Img, k: nat)
    requires RootShape(g, s.d, s.l1)
    ensures Resolved(g, s, k, EntryOf(g, s.d, s.l1, k).cluster)
  {
    ByteIndex(g, k);
    if L1Index(g, k) < |s.l1| {
      assert EntryShape(g, s.d, s.l1[L1Index(g, k)]);
    }
  }

  /** What was read, sector by sector. */
  lemma ReadsAre(g: Geometry, s: Img, cache: L2Cache, k: nat, buf: seq<Sector>)
    requires CanRead(g, s, cache) && Reads(g, s.d, s.l1, k, buf)
    ensures forall y: nat :: k <= y < k + |buf| ==>
      var c := EntryOf(g, s.d, s.l1, y).cluster;
      if c != 0 then
        c in s.d && s.d[c].Data? && |s.d[c].sectors| == g.cs && buf[y - k] == g.dec(y, s.d[c].sectors[y % g.cs])
      else if y < |g.backing| then buf[y - k] == g.backing[y]
      else Blank(buf[y - k])
  {
    forall y: nat | k <= y < k + |buf|
      ensures var c := EntryOf(g, s.d, s.l1, y).cluster; c != 0 ==> c in s.d && s.d[c].Data? && |s.d[c].sectors| == g.cs
      ensures buf[y - k] == Look(g, s.d, s.l1, y)
    {
      assert Look(g, s.d, s.l1, y) == buf[y - k];
      var i := L1Index(g, y);
      if i < |s.l1| {
        assert EntryShape(g, s.d, s.l1[i]);
        assert s.l1[i].cluster != 0 ==> LeafShape(g, s.d, TableAt(s.d, s.l1[i].cluster)[L2Index(g, y)]);
      }
    }
  }

  lemma ActiveL2(g: Geometry, s: Img, i: nat)
    requires Consistent(g, s) && i < |s.l1| && (s.l1[i].copied || s.l1[i].cluster != 0)
    ensures s.l1[i].cluster != 0 && s.l1[i].cluster in s.d && s.d[s.l1[i].cluster].Table?
    ensures CountOf(s.cnt, s.l1[i].cluster) > 0
    ensures |TableAt(s.d, s.l1[i].cluster)| == g.L2Size()
  {
    ActiveRoot(g, s);
    assert EntryShape(g, s.d, s.l1[i]);
    PathLeaf(s.d, s.l1, i, 0);
    ReachedIsCounted(g, s, Roots(s), 0, s.l1[i].cluster);
  }

  /** A flagged leaf points to a data cluster. */
  lemma FlaggedLeaf(g: Geometry, s: Img, i: nat, j: nat)
    requires Consistent(g, s) && i < |s.l1| && s.l1[i].cluster != 0 && j < |TableAt(s.d, s.l1[i].cluster)|
    requires TableAt(s.d, s.l1[i].cluster)[j].copied
    ensures var e := TableAt(s.d, s.l1[i].cluster)[j];
      e.cluster != 0 && e.cluster in s.d && s.d[e.cluster].Data? && |s.d[e.cluster].sectors| == g.cs
  {
    ActiveRoot(g, s);
    assert EntryShape(g, s.d, s.l1[i]);
    assert LeafShape(g, s.d, TableAt(s.d, s.l1[i].cluster)[j]);
  }

  /** Changing a cluster that is neither reached nor cached disturbs no reader. */
  lemma FillKeeps(g: Geometry, s: Img, at: nat, content: Content, cache: L2Cache)
    requires CanRead(g, s, cache) && PathRefs(s.d, s.l1, at) == 0 && at !in cache.offsets
    ensures CanRead(g, s.(d := s.d[at := content]), cache) && PathRefs(s.d[at := content], s.l1, at) == 0
    ensures forall k: nat :: Look(g, s.d[at := content], s.l1, k) == Look(g, s.d, s.l1, k)
  {
    RootKept(g, s.d, s.d[at := content], s.l1);
  }

  /** Between allocating a data cluster and linking it, the guest disk can be read and is as before. */
  lemma FillStart(g: Geometry, s: Img, s1: Img, s2: Img, from: nat, at: nat, cache: L2Cache)
    requires g.Valid() && Consistent(g, s) && Coherent(s.d, s.cnt, cache) && Swapped(s, s1, s2, from, at)
    requires from != 0 ==> CountOf(s.cnt, from) >= 2
    ensures CanRead(g, s2, cache) && PathRefs(s2.d, s2.l1, at) == 0 && at !in cache.offsets
    ensures forall k: nat :: Look(g, s2.d, s.l1, k) == Look(g, s.d, s.l1, k)
  {
    ConsistentCanRead(g, s, cache);
    ActiveRoot(g, s);
    SwapMoves(s, s1, s2, from, at);
    FreshNonzero(g, s, Roots(s), at);
    FreshUnreached(g, s, Roots(s), 0, at);
    CoherentSwap(g, s, s2, from, at, cache, {});
    ReachedKept(g, s, s2.d, Roots(s), {}, 0);
    RootKept(g, s.d, s2.d, s.l1);
    FillCounts(g, s, s2, from, at);
  }

  lemma FillCounts(g: Geometry, s: Img, s2: Img, from: nat, at: nat)
    requires Consistent(g, s) && Moved(s, s2, from, at) && (from != 0 ==> CountOf(s.cnt, from) >= 2)
    ensures forall i :: 0 <= i < |s.l1| && s.l1[i].cluster != 0 ==> CountOf(s2.cnt, s.l1[i].cluster) > 0
  {
    forall i | 0 <= i < |s.l1| && s.l1[i].cluster != 0 ensures CountOf(s2.cnt, s.l1[i].cluster) > 0 {
      ActiveRoot(g, s);
      PathLeaf(s.d, s.l1, i, 0);
      ReachedIsCounted(g, s, Roots(s), 0, s.l1[i].cluster);
      StillCounted(s, s2, from, at, s.l1[i].cluster);
    }
  }

  lemma Overwrite(d: Disk, k: nat, a: Content, b: Content)
    ensures d[k := a][k := b] == d[k := b]
  {
  }

  lemma Rewrite(d: Disk, k: nat)
    requires k in d
    ensures d[k := d[k]] == d
  {
  }

  // ---------- A private data cluster ----------

  /** The cache with entry j of slot x changed. */
  function CacheSet(cache: L2Cache, x: nat, j: nat, e: Entry): L2Cache
    requires x < |cache.tables| && j < |cache.tables[x]|
  {
    cache.(tables := cache.tables[x := cache.tables[x][j := e]])
  }

  lemma LeafCacheAfter(g: Geometry, s: Img, s': Img, i: nat, j: nat, at: nat, sectors: seq<Sector>, cache: L2Cache,
      x: nat)
    requires OwnShape(g, s) && Coherent(s.d, s.cnt, cache) && LeafRelinked(g, s, s', i, j, at, sectors)
    requires TableAt(s.d, s.l1[i].cluster)[j].cluster != 0 ==>
      CountOf(s.cnt, TableAt(s.d, s.l1[i].cluster)[j].cluster) >= 2
    requires x < L2_CACHE_SIZE && cache.offsets[x] == s.l1[i].cluster
    ensures Coherent(s'.d, s'.cnt, CacheSet(cache, x, j, Entry(at, true)))
  {
    var from := TableAt(s.d, s.l1[i].cluster)[j].cluster;
    forall y | 0 <= y < L2_CACHE_SIZE && cache.offsets[y] != 0
      ensures CountOf(s'.cnt, cache.offsets[y]) > 0
      ensures y != x ==> cache.offsets[y] in s'.d && s'.d[cache.offsets[y]] == Table(cache.tables[y])
    {
      assert cache.offsets[y] !in s.meta;
      StillCounted(s, s', from, at, cache.offsets[y]);
    }
  }

  /** Everything after a data cluster was allocated and filled for guest cluster (i, j). */
  lemma LeafAll(g: Geometry, s: Img, s1: Img, s2: Img, i: nat, j: nat, at: nat, sectors: seq<Sector>, cache: L2Cache,
      x: nat)
    requires Consistent(g, s) && Coherent(s.d, s.cnt, cache) && Bounded(s) && |sectors| == g.cs
    requires i < |s.l1| && s.l1[i].cluster != 0 && s.l1[i].copied && x < L2_CACHE_SIZE
    requires cache.offsets[x] == s.l1[i].cluster
    requires j < |TableAt(s.d, s.l1[i].cluster)| && !TableAt(s.d, s.l1[i].cluster)[j].copied
    requires Swapped(s, s1, s2, TableAt(s.d, s.l1[i].cluster)[j].cluster, at)
    ensures TableAt(s2.d, s.l1[i].cluster) == TableAt(s.d, s.l1[i].cluster) == cache.tables[x]
    ensures var s' := LinkLeaf(s2, i, j, at, sectors);
      && Consistent(g, s') && ClusterWritten(g, s, s', i, j, at, sectors) && SameSnapDisks(g, s, s') && Bounded(s')
      && Coherent(s'.d, s'.cnt, CacheSet(cache, x, j, Entry(at, true))) && at != 0
  {
    LeafFromAlloc(g, s, s1, s2, i, j, at, sectors);
    var s' := LinkLeaf(s2, i, j, at, sectors);
    LeafStep(g, s, s', i, j, at, sectors);
    LeafEntryShared(g, s, i, j);
    ActiveRoot(g, s);
    LeafCacheAfter(g, s, s', i, j, at, sectors, cache, x);
    FreshNonzero(g, s, Roots(s), at);
    BoundedMoved(s, s1, s2, TableAt(s.d, s.l1[i].cluster)[j].cluster, at);
  }

  // ---------- Guest sectors ----------

  /** Guest sectors outside lo .. hi - 1 are as before. */
  ghost predicate Outside(g: Geometry, s: Img, s': Img, lo: nat, hi: nat) {
    forall y: nat :: !(lo <= y < hi) ==> Look(g, s'.d, s'.l1, y) == Look(g, s.d, s.l1, y)
  }

  /** Guest sectors k, k+1, ... now read as buf and all others as before. */
  ghost predicate SectorsWritten(g: Geometry, s: Img, s': Img, k: nat, buf: seq<Sector>) {
    forall y: nat :: Look(g, s'.d, s'.l1, y) == if k <= y < k + |buf| then buf[y - k] else Look(g, s.d, s.l1, y)
  }

  /** First sector of the guest cluster of sector k. */
  function ClusterStart(g: Geometry, k: nat): nat { k - k % g.cs }

  lemma InCluster(g: Geometry, k: nat, y: nat)
    requires Mapped(g, L1Index(g, k), L2Index(g, k), y)
    ensures y == ClusterStart(g, k) + y % g.cs
  {
    GuestClusterUnique(g, k, y);
    assert y == (y / g.cs) * g.cs + y % g.cs && k == (k / g.cs) * g.cs + k % g.cs;
  }

  /** The sectors, outside a .. b - 1, are the guest sectors from `start` on, encrypted. */
  ghost predicate FilledFrom(g: Geometry, d: Disk, l1: seq<Entry>, start: nat, a: nat, b: nat, sectors: seq<Sector>) {
    && |sectors| == g.cs
    && forall y: nat :: start <= y < start + g.cs && !(start + a <= y < start + b) ==>
      sectors[y - start] == g.enc(y, Look(g, d, l1, y))
  }

  /** A new data cluster whose sectors outside a .. b - 1 were copied from the guest disk shows no change outside them.
      */
  lemma FilledOutside(g: Geometry, s: Img, s': Img, k: nat, at: nat, a: nat, b: nat, sectors: seq<Sector>)
    requires g.Valid() && ClusterWritten(g, s, s', L1Index(g, k), L2Index(g, k), at, sectors)
    requires FilledFrom(g, s.d, s.l1, ClusterStart(g, k), a, b, sectors)
    ensures Outside(g, s, s', ClusterStart(g, k) + a, ClusterStart(g, k) + b)
  {
    var start := ClusterStart(g, k);
    forall y: nat | !(start + a <= y < start + b) ensures Look(g, s'.d, s'.l1, y) == Look(g, s.d, s.l1, y) {
      if Mapped(g, L1Index(g, k), L2Index(g, k), y) {
        InCluster(g, k, y);
      }
    }
  }

  /** Writing encrypted sectors into the private data cluster of guest sector k writes those guest sectors. */
  lemma SplicedSectors(g: Geometry, s: Img, s': Img, k: nat, c: nat, buf: seq<Sector>)
    requires g.Valid() && k % g.cs + |buf| <= g.cs && c in s.d && s.d[c].Data? && |s.d[c].sectors| == g.cs && c != 0
    requires EntryOf(g, s.d, s.l1, k) == Entry(c, true)
    requires ClusterWritten(g, s, s', L1Index(g, k), L2Index(g, k),
      c, Splice(s.d[c].sectors, k % g.cs, Encrypted(g, k, buf)))
    ensures SectorsWritten(g, s, s', k, buf)
  {
    var sectors := Splice(s.d[c].sectors, k % g.cs, Encrypted(g, k, buf));
    forall y: nat ensures Look(g, s'.d, s'.l1, y) == if k <= y < k + |buf| then buf[y - k] else Look(g, s.d, s.l1, y) {
      if Mapped(g, L1Index(g, k), L2Index(g, k), y) {
        InCluster(g, k, y);
        assert EntryOf(g, s.d, s.l1, y) == Entry(c, true);
        assert Look(g, s'.d, s'.l1, y) == g.dec(y, sectors[y % g.cs]);
      } else if k <= y < k + |buf| {
        SameGuestCluster(g, k, y - k);
      }
    }
  }

  lemma WrittenAfterOutside(g: Geometry, s: Img, s1: Img, s2: Img, k: nat, buf: seq<Sector>)
    requires Outside(g, s, s1, k, k + |buf|) && SectorsWritten(g, s1, s2, k, buf)
    ensures SectorsWritten(g, s, s2, k, buf)
  {
    forall y: nat ensures Look(g, s2.d, s2.l1, y) == if k <= y < k + |buf| then buf[y - k] else Look(g, s.d, s.l1, y) {
      assert Look(g, s2.d, s2.l1, y) == if k <= y < k + |buf| then buf[y - k] else Look(g, s1.d, s1.l1, y);
    }
  }

  lemma WrittenAppend(g: Geometry, s: Img, s1: Img, s2: Img, k: nat, buf: seq<Sector>, n: nat, m: nat)
    requires n + m <= |buf| && SectorsWritten(g, s, s1, k, buf[..n]) && SectorsWritten(g, s1, s2, k + n, buf[n..n + m])
    ensures SectorsWritten(g, s, s2, k, buf[..n + m])
  {
    forall y: nat
      ensures Look(g, s2.d, s2.l1, y)
        == if k <= y < k + |buf[..n + m]| then buf[..n + m][y - k] else Look(g, s.d, s.l1, y)
    {
      assert Look(g, s2.d, s2.l1, y)
        == if k + n <= y < k + n + m then buf[n..n + m][y - k - n] else Look(g, s1.d, s1.l1, y);
      assert Look(g, s1.d, s1.l1, y) == if k <= y < k + n then buf[..n][y - k] else Look(g, s.d, s.l1, y);
    }
  }

  /** Sectors a .. b - 1 of a guest cluster all lie behind one L1 entry. */
  lemma ClusterBehind(g: Geometry, k: nat, a: nat, b: nat)
    requires b <= g.cs
    ensures a < b ==> Behind(g, L1Index(g, k), ClusterStart(g, k) + a, b - a)
  {
    var start := ClusterStart(g, k);
    assert k == (k / g.cs) * g.cs + k % g.cs;
    DivUnique(start, g.cs, k / g.cs, 0);
    SameGuestCluster(g, start, k % g.cs);
    forall y: nat | start + a <= y < start + b ensures L1Index(g, y) == L1Index(g, k) {
      SameGuestCluster(g, start, y - start);
    }
  }

  // ---------- The metadata part of a write ----------

  /** Guest clusters that already have a private data cluster keep it. */
  ghost predicate PrivateKept(g: Geometry, s: Img, s': Img) {
    forall y: nat :: EntryOf(g, s.d, s.l1, y).copied ==> EntryOf(g, s'.d, s'.l1, y) == EntryOf(g, s.d, s.l1, y)
  }

  /** What get_cluster_offset promises when it allocates for guest sectors lo .. hi - 1, one of them k: they have the
      private data cluster c, no other guest sector reads differently, and nothing else that was private moved. */
  ghost predicate Prepared(g: Geometry, s: Img, s': Img, k: nat, c: nat, lo: nat, hi: nat) {
    && c != 0 && EntryOf(g, s'.d, s'.l1, k) == Entry(c, true)
    && Outside(g, s, s', lo, hi) && PrivateKept(g, s, s') && SameSnapDisks(g, s, s')
  }

  lemma ReadyCompose(g: Geometry, s: Img, s1: Img, s2: Img, k: nat, c: nat, lo: nat, hi: nat)
    requires SameActiveDisk(g, s, s1) && SameSnapDisks(g, s, s1) && Prepared(g, s1, s2, k, c, lo, hi)
    ensures Prepared(g, s, s2, k, c, lo, hi)
  {
    forall y: nat | !(lo <= y < hi) ensures Look(g, s2.d, s2.l1, y) == Look(g, s.d, s.l1, y) {
      assert Look(g, s1.d, s1.l1, y) == Look(g, s.d, s.l1, y);
    }
  }

  lemma ReadyAlready(g: Geometry, s: Img, k: nat, c: nat, lo: nat, hi: nat)
    requires c != 0 && EntryOf(g, s.d, s.l1, k) == Entry(c, true)
    ensures Prepared(g, s, s, k, c, lo, hi)
  {
  }

  lemma ReadyFresh(g: Geometry, s: Img, s': Img, k: nat, c: nat, lo: nat, hi: nat)
    requires c != 0 && EntryOf(g, s'.d, s'.l1, k) == Entry(c, true) && !EntryOf(g, s.d, s.l1, k).copied
    requires Outside(g, s, s', lo, hi) && SameSnapDisks(g, s, s')
    requires forall y: nat ::
      !Mapped(g, L1Index(g, k), L2Index(g, k), y) ==> EntryOf(g, s'.d, s'.l1, y) == EntryOf(g, s.d, s.l1, y)
    ensures Prepared(g, s, s', k, c, lo, hi)
  {
  }

  lemma SameTwice(g: Geometry, s: Img, s1: Img, s2: Img)
    requires SameActiveDisk(g, s, s1) && SameSnapDisks(g, s, s1) && SameActiveDisk(g, s1, s2)
    requires SameSnapDisks(g, s1, s2)
    ensures SameActiveDisk(g, s, s2) && SameSnapDisks(g, s, s2)
  {
    forall k: nat
      ensures Look(g, s2.d, s2.l1, k) == Look(g, s.d, s.l1, k) && EntryOf(g, s2.d, s2.l1, k) == EntryOf(g, s.d, s.l1, k)
    {
      assert Look(g, s1.d, s1.l1, k) == Look(g, s.d, s.l1, k);
    }
    forall i, k: nat | 0 <= i < |s.snaps| ensures SnapLook(g, s2, i, k) == SnapLook(g, s, i, k) {
      assert SnapLook(g, s1, i, k) == SnapLook(g, s, i, k);
    }
  }

  // ---------- The data part of a write ----------

  /** The image after sectors buf were written, encrypted, to the data cluster c of guest sector k. */
  function PutSectors(g: Geometry, s: Img, k: nat, c: nat, buf: seq<Sector>): Img
    requires c in s.d && s.d[c].Data? && |s.d[c].sectors| == g.cs && k % g.cs + |buf| <= g.cs
  {
    s.(d := s.d[c := Data(Splice(s.d[c].sectors, k % g.cs, Encrypted(g, k, buf)))])
  }

  /** A private data cluster of the active disk is there to be written. */
  lemma PrivateData(g: Geometry, s: Img, k: nat, c: nat)
    requires Consistent(g, s) && c != 0 && EntryOf(g, s.d, s.l1, k) == Entry(c, true)
    ensures c in s.d && s.d[c].Data? && |s.d[c].sectors| == g.cs
    ensures L1Index(g, k) < |s.l1| && s.l1[L1Index(g, k)].cluster != 0
    ensures L2Index(g, k) < |TableAt(s.d, s.l1[L1Index(g, k)].cluster)|
    ensures TableAt(s.d, s.l1[L1Index(g, k)].cluster)[L2Index(g, k)] == Entry(c, true)
  {
    FlaggedLeaf(g, s, L1Index(g, k), L2Index(g, k));
  }

  /** Writing sectors to a private data cluster writes the guest sectors and changes no other guest disk. */
  lemma PutAll(g: Geometry, s: Img, k: nat, c: nat, buf: seq<Sector>, cache: L2Cache)
    requires g.Valid() && Consistent(g, s) && Coherent(s.d, s.cnt, cache) && Bounded(s)
    requires c != 0 && EntryOf(g, s.d, s.l1, k) == Entry(c, true) && k % g.cs + |buf| <= g.cs
    ensures c in s.d && s.d[c].Data? && |s.d[c].sectors| == g.cs
    ensures var s' := PutSectors(g, s, k, c, buf);
      && Consistent(g, s') && Coherent(s'.d, s'.cnt, cache) && Bounded(s')
      && SectorsWritten(g, s, s', k, buf) && SameSnapDisks(g, s, s') && PrivateKept(g, s, s')
  {
    PrivateData(g, s, k, c);
    var s' := PutSectors(g, s, k, c, buf);
    DataStep(g, s, s', L1Index(g, k), L2Index(g, k), s'.d[c].sectors);
    SplicedSectors(g, s, s', k, c, buf);
    PutKeepsEntries(g, s, s', k, c);
  }

  lemma PutKeepsEntries(g: Geometry, s: Img, s': Img, k: nat, c: nat)
    requires c in s.d && s.d[c].Data? && c in s'.d && s'.d[c].Data? && s' == s.(d := s.d[c := s'.d[c]])
    ensures PrivateKept(g, s, s')
  {
    forall y: nat ensures EntryOf(g, s'.d, s'.l1, y) == EntryOf(g, s.d, s.l1, y) {}
  }

  lemma SnapsTwice(g: Geometry, s: Img, s1: Img, s2: Img)
    requires SameSnapDisks(g, s, s1) && SameSnapDisks(g, s1, s2)
    ensures SameSnapDisks(g, s, s2)
  {
    forall i, k: nat | 0 <= i < |s.snaps| ensures SnapLook(g, s2, i, k) == SnapLook(g, s, i, k) {
      assert SnapLook(g, s1, i, k) == SnapLook(g, s, i, k);
    }
  }

  /** The first n sectors of buf are written from guest sector k on, and no snapshot changed. */
  ghost predicate WrittenSoFar(g: Geometry, s: Img, s': Img, k: nat, buf: seq<Sector>, n: nat) {
    n <= |buf| && SectorsWritten(g, s, s', k, buf[..n]) && SameSnapDisks(g, s, s')
  }

  lemma WrittenStart(g: Geometry, s: Img, k: nat, buf: seq<Sector>)
    ensures WrittenSoFar(g, s, s, k, buf, 0)
  {
  }

  lemma WrittenStep(g: Geometry, s: Img, s1: Img, s2: Img, k: nat, buf: seq<Sector>, n: nat, m: nat)
    requires WrittenSoFar(g, s, s1, k, buf, n) && n + m <= |buf|
    requires SectorsWritten(g, s1, s2, k + n, buf[n..n + m]) && SameSnapDisks(g, s1, s2)
    ensures WrittenSoFar(g, s, s2, k, buf, n + m)
  {
    WrittenAppend(g, s, s1, s2, k, buf, n, m);
    SnapsTwice(g, s, s1, s2);
  }

  lemma WrittenEnd(g: Geometry, s: Img, s': Img, k: nat, buf: seq<Sector>)
    requires WrittenSoFar(g, s, s', k, buf, |buf|)
    ensures SectorsWritten(g, s, s', k, buf) && SameSnapDisks(g, s, s')
  {
    assert buf[..|buf|] == buf;
  }

  // ---------- The size of the L1 table ----------

  /** The L1 table keeps its size and no cluster is lost. */
  predicate Steady(s: Img, s': Img) { |s'.l1| == |s.l1| && s'.leaked == s.leaked }

  /** The L1 table has grown, if need be, just enough to hold an entry for guest sector k. */
  predicate Stretched(g: Geometry, s: Img, s': Img, k: nat) {
    |s.l1| > 0 && |s'.l1| == GrownSize(|s.l1|, L1Index(g, k) + 1) && s'.leaked == s.leaked
  }

  lemma {:induction false} GrownTwice(size: nat, a: nat, b: nat)
    requires size > 0 && a <= b
    ensures GrownSize(GrownSize(size, a), b) == GrownSize(size, b)
    decreases a - size
  {
    if a > size {
      GrownTwice((size * 3 + 1) / 2, a, b);
    }
  }

  lemma StretchedTwice(g: Geometry, s: Img, s1: Img, s2: Img, k: nat, y: nat)
    requires Stretched(g, s, s1, k) && Stretched(g, s1, s2, y) && k <= y
    ensures Stretched(g, s, s2, y)
  {
    DivMono(k, y, g.cs * g.L2Size());
    GrownTwice(|s.l1|, L1Index(g, k) + 1, L1Index(g, y) + 1);
  }

  /** The L1 table after n sectors have been written from k on. */
  predicate StretchedSoFar(g: Geometry, s: Img, s': Img, k: nat, n: nat) {
    if n == 0 then Steady(s, s') else Stretched(g, s, s', k + n - 1)
  }

  lemma StretchedStep(g: Geometry, s: Img, s1: Img, s2: Img, k: nat, n: nat, m: nat)
    requires StretchedSoFar(g, s, s1, k, n) && Stretched(g, s1, s2, k + n) && m > 0 && (k + n) % g.cs + m <= g.cs
    ensures StretchedSoFar(g, s, s2, k, n + m)
  {
    SameGuestCluster(g, k + n, m - 1);
    if n > 0 {
      StretchedTwice(g, s, s1, s2, k + n - 1, k + n);
    }
  }
}

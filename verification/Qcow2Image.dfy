/**
 The qcow2 image engine: BDRVQcowState and the functions that change it.

 The counts are those of the refcount store, which the engine asks for every one of them. Clusters stand for byte
 offsets, and input and output succeed.
 */
module Qcow2Image {
  import opened Qcow2Format
  import opened Qcow2State
  import opened Qcow2Relink
  import opened Qcow2Own
  import opened Qcow2Steps
  import opened Qcow2Grow
  import opened Qcow2Pass
  import opened Qcow2Guest
  import opened Qcow2Write
  import opened Qcow2Walk
  import opened Qcow2Snap
  import opened Qcow2Flat
  import opened Qcow2Fresh
  import opened SnapshotIds
  import opened Qcow2Cost
  import opened RefcountState
  import opened RefcountSteps
  import opened RefcountTally
  import opened RefcountRuns
  import opened RefcountAlloc
  import opened RefcountRoom
  import opened RefcountLink
  import RefcountStore

  predicate SameSlots(c: L2Cache, c': L2Cache) { c'.offsets == c.offsets && c'.tables == c.tables }

  predicate EmptyCache(c: L2Cache) {
    && |c.offsets| == L2_CACHE_SIZE && |c.tables| == L2_CACHE_SIZE && |c.hits| == L2_CACHE_SIZE
    && forall x :: 0 <= x < L2_CACHE_SIZE ==> c.offsets[x] == 0 && c.hits[x] == 0
  }

  lemma SlotsCoherent(d: Disk, cnt: map<nat, nat>, c: L2Cache, d': Disk, cnt': map<nat, nat>, c': L2Cache)
    requires Coherent(d, cnt, c) && Coherent(d', cnt', c') && SameSlots(c, c')
    ensures Coherent(d, cnt, c')
  {
  }

  lemma EmptyCoherent(d: Disk, cnt: map<nat, nat>, c: L2Cache)
    requires EmptyCache(c)
    ensures Coherent(d, cnt, c)
  {
  }

  class Image {
    const g: Geometry
    // The host file, the refcounts, the active L1 table and the snapshots.
    var s: Img
    // The refcount table, its blocks and where to look for a free cluster.
    const rc: RefcountStore.RefcountStore
    var cache: L2Cache
    // How long the file may get, and how many clusters of that are still to be had.
    ghost var limit: nat
    ghost var budget: nat

    /** qcow_create and qcow_open: an image of the given number of guest sectors, all of them behind its backing disk.
        */
    constructor (geometry: Geometry, sectors: Pos, ghost most: nat)
      requires geometry.Valid() && Creatable(geometry, sectors) && FreshBudget(geometry, sectors, most) >= 0
      ensures Valid() && g == geometry && s.leaked == multiset{} && s.snaps == []
      ensures |s.l1| == L1Index(g, sectors - 1) + 1
      ensures forall k: nat ::
        if k < |g.backing| then Look(g, s.d, s.l1, k) == g.backing[k] else Blank(Look(g, s.d, s.l1, k))
      ensures fresh(rc) && limit == most && budget == FreshBudget(g, sectors, limit)
      ensures 2 * rc.st.b == 512 * g.cs && 8 * rc.st.e == 512 * g.cs
    {
      hide Consistent, Coherent, Bounded, Backs, FreshImg, FreshBudget, FreshStore, Look, PutL1, L1Clusters, Ready,
           Count;
      var n := L1Clusters(geometry, |FreshL1(geometry, sectors)|);
      var d := PutL1(map[0 := Header], 1, n, FreshL1(geometry, sectors));
      g := geometry;
      s := FreshImg(geometry, sectors);
      rc := new RefcountStore.RefcountStore(geometry.BlockSize(), geometry.L2Size(), d, n);
      cache := NO_CACHE;
      limit := most;
      budget := FreshBudget(geometry, sectors, most);
      new;
      FreshFields(g, sectors);
      FreshConsistent(g, sectors);
      FreshRest(g, sectors);
      FreshBacks(g, sectors, limit);
      BacksSizes(g, s.cnt, s.meta, rc.st, limit, budget);
    }

    // ---------- Refcounts ----------

    /** The store holds the image's counts and has room for the budget. */
    ghost predicate Backed()
      reads this, rc
    {
      Backs(g, s.cnt, s.meta, rc.st, limit, budget)
    }

    /** The same, but the search position may have passed a region without a block. */
    ghost predicate Held()
      reads this, rc
    {
      Inv(rc.st) && Settled(rc.st) && Prefix(rc.st) && Mirrors(g, s.cnt, s.meta, rc.st) && Room(rc.st, limit, budget)
    }

    /** A run of n clusters, and a longer refcount table, fit in what one refcount block counts. */
    ghost predicate Wide(n: nat)
      reads this
    {
      Ample(g.L2Size(), g.BlockSize(), limit, n)
    }

    method GetRefcount(c: nat) returns (n: nat)
      requires Backed()
      modifies rc
      ensures Backed() && n == CountOf(s.cnt, c)
    {
      ghost var st := rc.st;
      n := rc.GetRefcount(c);
      LookBacks(g, s.cnt, s.meta, st, rc.st, limit, budget);
      MirrorsAt(g, s.cnt, s.meta, st, c);
    }

    /** Change the count of a cluster in use. */
    method UpdateClusterRefcount(c: nat, addend: int) returns (r: int)
      requires Backed() && (addend == 1 || addend == -1) && CountOf(s.cnt, c) > 0
      requires addend == -1 && CountOf(s.cnt, c) == 1 ==> c !in s.meta && c != 0
      modifies `s, rc
      ensures Backed() && s == old(s).(cnt := s.cnt)
      ensures 0 <= CountOf(old(s.cnt), c) + addend <= MAX_COUNT ==>
        r == CountOf(old(s.cnt), c) + addend
        && forall x: nat ::
          CountOf(s.cnt, x) == if x == c then CountOf(old(s.cnt), c) + addend else CountOf(old(s.cnt), x)
      ensures !(0 <= CountOf(old(s.cnt), c) + addend <= MAX_COUNT) ==> r == -EINVAL && s == old(s)
    {
      hide Inv, Count, IsMeta, Settled, Ahead, Prefix, Room, Mirrors, Stays, Tally, Recounted, Evolves, Settles,
           CountMap;
      ghost var st := rc.st;
      MirrorsAt(g, s.cnt, s.meta, st, c);
      CountedStays(st, c);
      r := rc.UpdateClusterRefcount(c, addend);
      if r >= 0 {
        StoreRecounts(g, s.cnt, s.meta, st, rc.st, limit, budget, c, Count(st, c) + addend);
        s := s.(cnt := CountMap(rc.st));
      } else {
        LookBacks(g, s.cnt, s.meta, st, rc.st, limit, budget);
      }
    }

    /** A run of n clusters, each counted once. A run of none moves the search position alone. */
    method AllocClusters(n: nat) returns (at: nat)
      requires Backed() && n + 1 <= budget && Wide(n)
      requires forall c :: c in s.meta ==> c in s.d && s.d[c].Refcounting()
      modifies `s, `budget, rc
      ensures Held() && (n > 0 ==> Backed()) && budget == old(budget) - n - 1
      ensures Allocated(old(s), s, at, n) && (n == 0 ==> s == old(s))
    {
      hide Inv, Count, IsMeta, Settled, Ahead, Prefix, Room, Mirrors, Evolves, CountMap, MetaSet, Lent, Fits, FirstFit,
           Within, Safe, Ample, AllFree;
      ghost var st := rc.st;
      LentReady(g, s.cnt, s.meta, st, limit, budget, s.d);
      rc.Borrow(s.d);
      ghost var st1 := rc.st;
      RunBacks(g, s.cnt, s.meta, st1, limit, budget, n);
      at := rc.AllocClusters(n);
      budget := budget - n - 1;
      if n > 0 {
        FitFree(st1, at, n);
        StoreAllocates(g, s, st, st1, rc.st, at, n);
        AllocBacks(g, s.cnt, s.meta, st1, rc.st, limit, budget + n + 1, at, n);
        s := Synced(s, rc.st);
      } else {
        SkipMirrors(g, s.cnt, s.meta, st1, rc.st, limit, budget + 1);
        AllocatedNone(s, at);
      }
    }

    method FreeClusters(at: nat, n: nat)
      requires Held() && forall c: nat :: InRun(at, n, c) ==> CountOf(s.cnt, c) > 0 && c !in s.meta && c != 0
      requires Ahead(rc.st) || exists c: nat :: InRun(at, n, c) && CountOf(s.cnt, c) == 1
      modifies `s, rc
      ensures Backed() && s == old(s).(cnt := s.cnt) && Freed(old(s.cnt), s.cnt, at, n)
    {
      hide Inv, Count, IsMeta, Settled, Ahead, Prefix, Room, Mirrors, Released, CountMap;
      ghost var st := rc.st;
      FreeReady(g, s.cnt, s.meta, st, at, n);
      rc.FreeClusters(at, n);
      StoreFrees(g, s.cnt, s.meta, st, rc.st, limit, budget, at, n);
      s := s.(cnt := CountMap(rc.st));
    }

    // ---------- The L2 cache ----------

    method L2CacheReset()
      modifies `cache
      ensures EmptyCache(cache)
    {
      cache := L2Cache(seq(L2_CACHE_SIZE, _ => 0), seq(L2_CACHE_SIZE, _ => []), seq(L2_CACHE_SIZE, _ => 0));
    }

    /** The least used slot. */
    method L2CacheNewEntry() returns (slot: nat)
      requires |cache.hits| == L2_CACHE_SIZE && forall x :: 0 <= x < L2_CACHE_SIZE ==> cache.hits[x] < MAX_HITS
      ensures slot < L2_CACHE_SIZE && forall x :: 0 <= x < L2_CACHE_SIZE ==> cache.hits[slot] <= cache.hits[x]
    {
      slot := 0;
      var least := MAX_HITS;
      var i := 0;
      while i < L2_CACHE_SIZE
        invariant i <= L2_CACHE_SIZE && slot < L2_CACHE_SIZE
        invariant i > 0 ==> least == cache.hits[slot]
        invariant i == 0 ==> least == MAX_HITS
        invariant forall x :: 0 <= x < i ==> least <= cache.hits[x]
      {
        if cache.hits[i] < least {
          least := cache.hits[i];
          slot := i;
        }
        i := i + 1;
      }
    }

    /** Put the table t, now at cluster l2, in the least used slot. */
    method L2CachePut(l2: nat, t: seq<Entry>) returns (slot: nat)
      requires Coherent(s.d, s.cnt, cache) && l2 !in cache.offsets && l2 in s.d && s.d[l2] == Table(t)
      requires CountOf(s.cnt, l2) > 0
      modifies `cache
      ensures Coherent(s.d, s.cnt, cache) && slot < L2_CACHE_SIZE && cache.offsets[slot] == l2
      ensures cache.tables[slot] == t
    {
      slot := L2CacheNewEntry();
      cache := L2Cache(cache.offsets[slot := l2], cache.tables[slot := t], cache.hits[slot := 1]);
    }

    /** Find or load the L2 table at cluster l2; a table already cached displaces nothing. */
    method L2Load(l2: nat) returns (slot: nat)
      requires Coherent(s.d, s.cnt, cache) && l2 != 0 && l2 in s.d && s.d[l2].Table? && CountOf(s.cnt, l2) > 0
      modifies `cache
      ensures Coherent(s.d, s.cnt, cache) && slot < L2_CACHE_SIZE && cache.offsets[slot] == l2
      ensures cache.tables[slot] == TableAt(s.d, l2)
      ensures l2 in old(cache.offsets) ==> SameSlots(old(cache), cache)
    {
      var i := 0;
      while i < L2_CACHE_SIZE
        invariant i <= L2_CACHE_SIZE
        invariant forall x :: 0 <= x < i ==> cache.offsets[x] != l2
      {
        if l2 == cache.offsets[i] {
          var hits := cache.hits[i := cache.hits[i] + 1];
          if hits[i] == MAX_HITS {
            hits := seq(L2_CACHE_SIZE, x requires 0 <= x < L2_CACHE_SIZE => hits[x] / 2);
          }
          cache := cache.(hits := hits);
          return i;
        }
        i := i + 1;
      }
      slot := L2CachePut(l2, s.d[l2].entries);
    }

    // ---------- Reading ----------

    /** get_cluster_offset with allocate == 0. */
    method GetClusterOffset(k: nat) returns (c: nat)
      requires CanRead(g, s, cache)
      modifies `cache
      ensures CanRead(g, s, cache) && c == EntryOf(g, s.d, s.l1, k).cluster && Resolved(g, s, k, c)
      ensures L1Index(g, k) < |s.l1| && s.l1[L1Index(g, k)].cluster in old(cache.offsets) ==>
        SameSlots(old(cache), cache)
    {
      hide Resolved;
      LookupResolved(g, s, k);
      var i := L1Index(g, k);
      if i >= |s.l1| {
        return 0;
      }
      var l2 := s.l1[i].cluster;
      if l2 == 0 {
        return 0;
      }
      assert EntryShape(g, s.d, s.l1[i]);
      var slot := L2Load(l2);
      c := cache.tables[slot][L2Index(g, k)].cluster;
    }

    method Read(k: nat, n: nat) returns (buf: seq<Sector>)
      requires CanRead(g, s, cache)
      modifies `cache
      ensures CanRead(g, s, cache) && |buf| == n && Reads(g, s.d, s.l1, k, buf)
      ensures forall y: nat :: k <= y < k + n ==>
        var c := EntryOf(g, s.d, s.l1, y).cluster;
        if c != 0 then
          && c in s.d && s.d[c].Data? && |s.d[c].sectors| == g.cs
          && buf[y - k] == g.dec(y, s.d[c].sectors[y % g.cs])
        else if y < |g.backing| then buf[y - k] == g.backing[y]
        else Blank(buf[y - k])
      ensures forall i: nat ::
        Behind(g, i, k, n) && i < |s.l1| && s.l1[i].cluster in old(cache.offsets) ==> SameSlots(old(cache), cache)
    {
      hide Look, EntryOf, RootShape, Coherent, Resolved;
      buf := [];
      while |buf| < n
        invariant CanRead(g, s, cache) && |buf| <= n && Reads(g, s.d, s.l1, k, buf)
        invariant forall i: nat ::
          Behind(g, i, k, n) && i < |s.l1| && s.l1[i].cluster in old(cache.offsets) ==> SameSlots(old(cache), cache)
      {
        var at := k + |buf|;
        var c := GetClusterOffset(at);
        var m := Chunk(g, at, n - |buf|);
        var part;
        if c == 0 {
          part := BackingRead(g, at, m);
        } else {
          part := Decrypted(g, s.d, c, at % g.cs, at, m);
        }
        ReadChunk(g, s.d, s.l1, at, m);
        ReadsAppend(g, s.d, s.l1, k, buf, part);
        buf := buf + part;
      }
      ReadsAre(g, s, cache, k, buf);
    }

    // ---------- Growing the L1 table ----------

    /** Allocate n clusters, then free the run of m clusters at `old1`, which the image holds. */
    method SwapRun(n: nat, old1: nat, m: nat, ghost roots: seq<seq<Entry>>) returns (at: nat, ghost s2: Img)
      requires Sound(g, s, roots) && Bounded(s) && RunOwned(g, s, old1, m)
      requires Backed() && n + 1 <= budget && Wide(n)
      requires n > 0 || exists c: nat :: InRun(old1, m, c) && CountOf(s.cnt, c) == 1
      modifies `s, `budget, rc
      ensures Allocated(old(s), s2, at, n) && s == s2.(cnt := s.cnt) && Freed(s2.cnt, s.cnt, old1, m)
      ensures Backed() && budget == old(budget) - n - 1
    {
      hide Sound, Backs, RunOwned, Ample, Ahead;
      MetaCounted(g, s, roots);
      ghost var s0 := s;
      at := AllocClusters(n);
      s2 := s;
      RunStillCounted(g, s0, s2, roots, at, n, old1, m);
      if n > 0 {
        BackedAhead(g, s.cnt, s.meta, rc.st, limit, budget);
      }
      FreeClusters(old1, m);
    }

    /** Write the active L1 table, now new1, to a fresh run and free the old one. */
    method MoveL1Table(new1: seq<Entry>, ghost roots: seq<seq<Entry>>)
      requires Sound(g, s, roots) && Coherent(s.d, s.cnt, cache) && Bounded(s) && |new1| > 0
      requires Backed() && L1Clusters(g, |new1|) + 1 <= budget && Wide(L1Clusters(g, |new1|))
      modifies `s, `budget, rc
      ensures Coherent(s.d, s.cnt, cache) && Bounded(s) && s.l1 == new1
      ensures OwnMoved(g, old(s), s) && SnapRoots(s.d, s.snaps) == SnapRoots(old(s.d), s.snaps)
      ensures s.snaps == old(s.snaps) && s.leaked == old(s.leaked) && s.snapLen == old(s.snapLen)
      ensures Backed() && budget == old(budget) - L1Clusters(g, |new1|) - 1
    {
      hide Backs, Ample;
      ghost var s0 := s;
      ActiveRunOwned(g, s0);
      L1ClustersPositive(g, |new1|);
      var at, s2 := SwapRun(L1Clusters(g, |new1|), s.l1At, L1Clusters(g, |s.l1|), roots);
      L1MovedAll(g, s0, s2, roots, at, new1, s.cnt, cache);
      s := s.(d := PutL1(s.d, at, L1Clusters(g, |new1|), new1), l1At := at, l1 := new1);
    }

    /** The active L1 table has at least minSize entries; whichever tables are counted stay as they are. */
    method GrowL1Table(minSize: nat, ghost roots: seq<seq<Entry>>) returns (ghost more: nat)
      requires Sound(g, s, roots) && Coherent(s.d, s.cnt, cache) && Bounded(s)
      requires Backed() && L1Cost(g, |s.l1|, minSize) <= budget
      requires |s.l1| < minSize ==> Wide(L1Run(g, |s.l1|, minSize))
      modifies `s, `budget, rc
      ensures Coherent(s.d, s.cnt, cache) && Bounded(s) && |s.l1| >= minSize
      ensures OwnMoved(g, old(s), s) && s.l1 == Lengthened(old(s.l1), more)
      ensures SnapRoots(s.d, s.snaps) == SnapRoots(old(s.d), s.snaps)
      ensures s.snaps == old(s.snaps) && (minSize <= |old(s.l1)| ==> s == old(s)) && s.snapLen == old(s.snapLen)
      ensures |s.l1| == GrownSize(|old(s.l1)|, minSize) && s.leaked == old(s.leaked)
      ensures Backed() && budget >= old(budget) - L1Cost(g, |old(s.l1)|, minSize)
      ensures minSize <= |old(s.l1)| ==> rc.st == old(rc.st) && budget == old(budget)
    {
      hide Backs, Ample;
      var size := |s.l1|;
      more := 0;
      if minSize <= size {
        OwnMovedRefl(g, s);
        assert Lengthened(s.l1, 0) == s.l1;
        return;
      }
      while minSize > size
        invariant size >= |s.l1| && GrownSize(size, minSize) == GrownSize(|s.l1|, minSize)
      {
        size := (size * 3 + 1) / 2;
      }
      more := size - |s.l1|;
      L1CostCovers(g, |s.l1|, minSize);
      MoveL1Table(Lengthened(s.l1, size - |s.l1|), roots);
    }

    // ---------- Writing ----------

    /** What holds between operations. */
    ghost predicate Valid()
      reads this, rc
    {
      Sane() && (s.snaps != [] ==> s.snapLen > 0)
    }

    /** The same, but for a snapshot table that has not been stored yet. */
    ghost predicate Sane()
      reads this, rc
    {
      g.Valid() && Consistent(g, s) && Coherent(s.d, s.cnt, cache) && Bounded(s) && |s.snaps| < MAX_COUNT && Backed()
    }

    /** Give back a reference to cluster c, if there is one (c is 0 when there is none). */
    method FreeOne(c: nat)
      requires Backed() && (c != 0 ==> CountOf(s.cnt, c) >= 2 && c !in s.meta)
      modifies `s, rc
      ensures Backed() && s == old(s).(cnt := s.cnt) && Freed(old(s.cnt), s.cnt, c, B(c != 0))
    {
      hide Inv, Settled, Ahead, Prefix, Mirrors, Room;
      if c != 0 {
        FreeClusters(c, 1);
      }
    }

    /** Give back a reference to the shared cluster `from` (0 for none) and allocate a cluster in its stead. */
    method SwapCluster(from: nat) returns (at: nat, ghost s1: Img)
      requires Consistent(g, s) && Bounded(s) && (from != 0 ==> CountOf(s.cnt, from) >= 2 && from !in s.meta)
      requires Backed() && budget >= 2 && Wide(1)
      modifies `s, `budget, rc
      ensures Swapped(old(s), s1, s, from, at) && Backed() && budget == old(budget) - 2
    {
      hide Backs, Ample, Consistent;
      FreeOne(from);
      s1 := s;
      MetaAfterFree(g, old(s), s1, from);
      at := AllocClusters(1);
    }

    /** Point active L1 entry i to the cluster `at`, just allocated, holding a copy of its L2 table. */
    method LinkNewL2(i: nat, at: nat, ghost s0: Img, ghost s1: Img)
      requires Consistent(g, s0) && Coherent(s0.d, s0.cnt, cache) && Bounded(s0)
      requires i < |s0.l1| && !s0.l1[i].copied && Swapped(s0, s1, s, s0.l1[i].cluster, at) && Backed()
      modifies `s
      ensures Backed() && s.snapLen == s0.snapLen && s.snaps == s0.snaps
      ensures Consistent(g, s) && Bounded(s) && SameActiveDisk(g, s0, s) && SameSnapDisks(g, s0, s)
      ensures Steady(s0, s) && s.l1[i] == Entry(at, true) && at in s.d && s.d[at].Table?
      ensures Coherent(s.d, s.cnt, cache) && at !in cache.offsets && at != 0 && CountOf(s.cnt, at) > 0
    {
      hide Backs, Consistent, Coherent, Bounded, Swapped, SameActiveDisk, SameSnapDisks;
      SwappedFields(s0, s1, s, s0.l1[i].cluster, at);
      L2All(g, s0, s1, s, i, at, cache);
      s := LinkL2(g, s, i, at, TableOf(g, s.d, s.l1[i]));
    }

    /** Active L1 entry i, empty or shared, gets an L2 table of its own (label l2_allocate). */
    method AllocateL2(i: nat) returns (slot: nat)
      requires Valid() && i < |s.l1| && !s.l1[i].copied && budget >= 2 && Wide(1)
      modifies `s, `cache, `budget, rc
      ensures budget >= old(budget) - 2
      ensures Valid() && SameActiveDisk(g, old(s), s) && SameSnapDisks(g, old(s), s)
      ensures Steady(old(s), s) && s.l1[i].copied && s.l1[i].cluster != 0
      ensures slot < L2_CACHE_SIZE && cache.offsets[slot] == s.l1[i].cluster
      ensures cache.tables[slot] == TableAt(s.d, s.l1[i].cluster)
    {
      hide Backs, Ample, Consistent, Bounded, Swapped, SameActiveDisk, SameSnapDisks;
      ghost var s0 := s;
      L1EntryShared(g, s0, i);
      var at, s1 := SwapCluster(s.l1[i].cluster);
      LinkNewL2(i, at, s0, s1);
      slot := L2CachePut(at, s.d[at].entries);
    }

    /** Active L1 entry i has an L2 table of its own, and that table is cached. */
    method OwnL2(i: nat) returns (slot: nat)
      requires Valid() && i < |s.l1| && (!s.l1[i].copied ==> budget >= 2 && Wide(1))
      modifies `s, `cache, `budget, rc
      ensures if old(s.l1)[i].copied then rc.st == old(rc.st) && budget == old(budget) else budget >= old(budget) - 2
      ensures Valid() && SameActiveDisk(g, old(s), s) && SameSnapDisks(g, old(s), s)
      ensures Steady(old(s), s) && s.l1[i].copied && s.l1[i].cluster != 0
      ensures slot < L2_CACHE_SIZE && cache.offsets[slot] == s.l1[i].cluster
      ensures cache.tables[slot] == TableAt(s.d, s.l1[i].cluster)
    {
      hide Backs, Ample, Consistent, Bounded, SameActiveDisk, SameSnapDisks;
      SameRefl(g, s);
      if !s.l1[i].copied {
        slot := AllocateL2(i);
      } else {
        ActiveL2(g, s, i);
        slot := L2Load(s.l1[i].cluster);
      }
    }

    /** Copy guest sectors start + a .. start + b - 1 into the data cluster `at`, which is not linked yet. */
    method CopySectors(start: nat, at: nat, a: nat, b: nat, ghost i: nat) returns (ghost sectors: seq<Sector>)
      requires CanRead(g, s, cache) && PathRefs(s.d, s.l1, at) == 0 && at !in cache.offsets
      requires at in s.d && s.d[at].Data? && |s.d[at].sectors| == g.cs && b <= g.cs
      requires i < |s.l1| && s.l1[i].cluster in cache.offsets && (a < b ==> Behind(g, i, start + a, b - a))
      modifies `s, `cache
      ensures |sectors| == g.cs && s == old(s).(d := old(s.d)[at := Data(sectors)])
      ensures forall y: nat :: start <= y < start + g.cs ==>
        sectors[y - start] == if start + a <= y < start + b then g.enc(y, Look(g, old(s.d), s.l1, y))
          else old(s.d[at].sectors)[y - start]
      ensures CanRead(g, s, cache) && SameSlots(old(cache), cache) && PathRefs(s.d, s.l1, at) == 0
      ensures forall k: nat :: Look(g, s.d, s.l1, k) == Look(g, old(s.d), s.l1, k)
    {
      sectors := s.d[at].sectors;
      if a >= b {
        Rewrite(s.d, at);
        return;
      }
      var buf := Read(start + a, b - a);
      var new1 := Splice(s.d[at].sectors, a, Encrypted(g, start + a, buf));
      sectors := new1;
      FillKeeps(g, s, at, Data(new1), cache);
      s := s.(d := s.d[at := Data(new1)]);
    }

    /** Fill the data cluster `at`, not linked yet, with what the guest cluster of sector k reads as, sectors a .. b - 1
        of it apart: those are about to be written. */
    method FillCluster(k: nat, at: nat, a: nat, b: nat) returns (ghost sectors: seq<Sector>)
      requires CanRead(g, s, cache) && PathRefs(s.d, s.l1, at) == 0 && at !in cache.offsets && a <= b <= g.cs
      requires L1Index(g, k) < |s.l1| && s.l1[L1Index(g, k)].cluster in cache.offsets
      modifies `s, `cache
      ensures s == old(s).(d := old(s.d)[at := Data(sectors)]) && SameSlots(old(cache), cache)
      ensures FilledFrom(g, old(s.d), s.l1, ClusterStart(g, k), a, b, sectors)
      ensures Coherent(s.d, s.cnt, cache)
    {
      hide PathRefs, Look, Coherent, Scrap, RootShape;
      ghost var d0 := s.d;
      var start := ClusterStart(g, k);
      sectors := Scrap(g, s.d, at);
      FillKeeps(g, s, at, Data(Scrap(g, s.d, at)), cache);
      s := s.(d := s.d[at := Data(Scrap(g, s.d, at))]);
      if b - a < g.cs {
        ClusterBehind(g, k, 0, a);
        ghost var first := CopySectors(start, at, 0, a, L1Index(g, k));
        Overwrite(d0, at, Data(sectors), Data(first));
        ClusterBehind(g, k, b, g.cs);
        sectors := CopySectors(start, at, b, g.cs, L1Index(g, k));
        Overwrite(d0, at, Data(first), Data(sectors));
      }
    }

    /** Slot x caches the private L2 table behind the active L1 entry of guest sector k. */
    ghost predicate Cached(k: nat, x: nat)
      reads this
    {
      && L1Index(g, k) < |s.l1| && s.l1[L1Index(g, k)].cluster != 0 && s.l1[L1Index(g, k)].copied
      && x < |cache.offsets| && cache.offsets[x] == s.l1[L1Index(g, k)].cluster
    }

    /** Point the L2 entry of guest sector k to the data cluster `at`, just allocated and filled. */
    method LinkNewLeaf(k: nat, at: nat, x: nat, ghost s0: Img, ghost s1: Img, ghost s2: Img, ghost sectors: seq<Sector>)
      requires Consistent(g, s0) && Coherent(s0.d, s0.cnt, cache) && Bounded(s0) && |sectors| == g.cs
      requires s == s2.(d := s2.d[at := Data(sectors)]) && s2.l1 == s0.l1 && Cached(k, x) && x < L2_CACHE_SIZE
      requires L2Index(g, k) < |TableAt(s0.d, s.l1[L1Index(g, k)].cluster)|
      requires !TableAt(s0.d, s.l1[L1Index(g, k)].cluster)[L2Index(g, k)].copied
      requires Swapped(s0, s1, s2, TableAt(s0.d, s.l1[L1Index(g, k)].cluster)[L2Index(g, k)].cluster, at)
      modifies `s, `cache
      ensures s == old(s).(d := s.d)
      ensures Consistent(g, s) && Bounded(s) && Coherent(s.d, s.cnt, cache) && at != 0 && Steady(s0, s)
      ensures ClusterWritten(g, s0, s, L1Index(g, k), L2Index(g, k), at, sectors) && SameSnapDisks(g, s0, s)
    {
      hide Sound, SnapsPlain, RootExact, Bounded, SameSnapDisks, ClusterWritten;
      var i, j := L1Index(g, k), L2Index(g, k);
      LeafAll(g, s0, s1, s2, i, j, at, sectors, cache, x);
      cache := CacheSet(cache, x, j, Entry(at, true));
      s := s.(d := s.d[s.l1[i].cluster := Table(cache.tables[x])]);
    }

    /** Allocate a data cluster in place of the shared cluster `from` (0 for none) and fill it for guest sector k. */
    method NewLeaf(k: nat, a: nat, b: nat, from: nat)
      returns (at: nat, ghost s1: Img, ghost s2: Img, ghost sectors: seq<Sector>)
      requires Valid() && a <= b <= g.cs && (from != 0 ==> CountOf(s.cnt, from) >= 2 && from !in s.meta)
      requires L1Index(g, k) < |s.l1| && s.l1[L1Index(g, k)].cluster in cache.offsets && budget >= 2 && Wide(1)
      modifies `s, `cache, `budget, rc
      ensures Backed() && budget == old(budget) - 2
      ensures Swapped(old(s), s1, s2, from, at) && s == s2.(d := s2.d[at := Data(sectors)])
      ensures SameSlots(old(cache), cache) && Coherent(old(s.d), old(s.cnt), cache)
      ensures FilledFrom(g, old(s.d), old(s.l1), ClusterStart(g, k), a, b, sectors)
    {
      hide Backs, Ample, Consistent, Bounded, Swapped, Coherent, L1Index, CanRead, PathRefs, Look;
      ghost var s0, cache0 := s, cache;
      at, s1 := SwapCluster(from);
      s2 := s;
      SwappedFields(s0, s1, s2, from, at);
      FillStart(g, s0, s1, s2, from, at, cache);
      sectors := FillCluster(k, at, a, b);
      SlotsCoherent(s0.d, s0.cnt, cache0, s.d, s.cnt, cache);
    }

    /** Link the filled data cluster: guest sectors outside the part about to be written are as they were. */
    method InstallLeaf(k: nat, a: nat, b: nat, at: nat, x: nat, ghost s0: Img, ghost s1: Img, ghost s2: Img,
        ghost sectors: seq<Sector>)
      requires g.Valid() && Consistent(g, s0) && Coherent(s0.d, s0.cnt, cache) && Bounded(s0) && |s0.snaps| < MAX_COUNT
      requires Backed() && (s0.snaps != [] ==> s0.snapLen > 0)
      requires s == s2.(d := s2.d[at := Data(sectors)]) && s2.l1 == s0.l1 && Cached(k, x) && x < L2_CACHE_SIZE
      requires L2Index(g, k) < |TableAt(s0.d, s.l1[L1Index(g, k)].cluster)|
      requires !TableAt(s0.d, s.l1[L1Index(g, k)].cluster)[L2Index(g, k)].copied
      requires Swapped(s0, s1, s2, TableAt(s0.d, s.l1[L1Index(g, k)].cluster)[L2Index(g, k)].cluster, at)
      requires FilledFrom(g, s0.d, s0.l1, ClusterStart(g, k), a, b, sectors)
      modifies `s, `cache
      ensures Valid() && Prepared(g, s0, s, k, at, ClusterStart(g, k) + a, ClusterStart(g, k) + b) && Steady(s0, s)
    {
      hide Sound, SnapsPlain, RootExact, Coherent, Bounded, Outside, PrivateKept;
      LinkNewLeaf(k, at, x, s0, s1, s2, sectors);
      FilledOutside(g, s0, s, k, at, a, b, sectors);
      ReadyFresh(g, s0, s, k, at, ClusterStart(g, k) + a, ClusterStart(g, k) + b);
    }

    /** The guest cluster of sector k, empty or shared, gets a data cluster of its own. */
    method AllocateLeaf(k: nat, a: nat, b: nat, x: nat) returns (at: nat)
      requires Valid() && Cached(k, x) && x < L2_CACHE_SIZE && a <= b <= g.cs
      requires L2Index(g, k) < |cache.tables[x]| && !cache.tables[x][L2Index(g, k)].copied && budget >= 2 && Wide(1)
      modifies `s, `cache, `budget, rc
      ensures budget >= old(budget) - 2
      ensures Valid() && Prepared(g, old(s), s, k, at, ClusterStart(g, k) + a, ClusterStart(g, k) + b)
      ensures Steady(old(s), s)
    {
      hide Backs, Ample, Consistent, Bounded, Swapped, Prepared, FilledFrom, L1Index, L2Index;
      ghost var s0 := s;
      LeafEntryShared(g, s0, L1Index(g, k), L2Index(g, k));
      ghost var s1, s2, sectors;
      at, s1, s2, sectors := NewLeaf(k, a, b, cache.tables[x][L2Index(g, k)].cluster);
      SwappedFields(s0, s1, s2, TableAt(s0.d, s0.l1[L1Index(g, k)].cluster)[L2Index(g, k)].cluster, at);
      InstallLeaf(k, a, b, at, x, s0, s1, s2, sectors);
    }

    /** The guest cluster of sector k has a data cluster of its own. */
    ghost predicate Owns(k: nat)
      reads this
    {
      EntryOf(g, s.d, s.l1, k).copied
    }

    /** There is room for what a write to the guest cluster of sector k may allocate. */
    ghost predicate Reaches(k: nat)
      reads this
    {
      && ReachCost(g, |s.l1|, k) <= budget && Wide(1)
      && (|s.l1| <= L1Index(g, k) ==> Wide(L1Run(g, |s.l1|, L1Index(g, k) + 1)))
    }

    /** The active L1 table has an entry for guest sector k. */
    method ReachL1(k: nat)
      requires Valid() && (Owns(k) || Reaches(k))
      modifies `s, `budget, rc
      ensures if old(Owns(k)) then rc.st == old(rc.st) && budget == old(budget)
        else budget >= old(budget) - L1Cost(g, |old(s.l1)|, L1Index(g, k) + 1)
      ensures Owns(k) <==> old(Owns(k))
      ensures Valid() && SameActiveDisk(g, old(s), s) && SameSnapDisks(g, old(s), s) && Stretched(g, old(s), s, k)
    {
      ghost var s0 := s;
      ActiveRoot(g, s0);
      if Owns(k) {
        PrivatePath(g, s, k);
      }
      ghost var more := GrowL1Table(L1Index(g, k) + 1, Roots(s));
      GrowStep(g, s0, s, more);
    }

    /** The L2 table of guest sector k is private and cached in slot x. */
    method ReachL2(k: nat) returns (x: nat)
      requires Valid() && (Owns(k) || Reaches(k))
      modifies `s, `cache, `budget, rc
      ensures if old(Owns(k)) then rc.st == old(rc.st) && budget == old(budget)
        else budget >= old(budget) - L1Cost(g, |old(s.l1)|, L1Index(g, k) + 1) - 2
      ensures Owns(k) <==> old(Owns(k))
      ensures Valid() && SameActiveDisk(g, old(s), s) && SameSnapDisks(g, old(s), s)
      ensures Stretched(g, old(s), s, k)
      ensures Cached(k, x) && x < L2_CACHE_SIZE && cache.tables[x] == TableAt(s.d, s.l1[L1Index(g, k)].cluster)
    {
      hide Consistent, Bounded, Backs, Ample, L1Cost, L1Run, EntryOf, GrownSize, Look, SameActiveDisk, SameSnapDisks;
      ReachL1(k);
      ghost var s1 := s;
      if Owns(k) {
        PrivatePath(g, s, k);
      }
      x := OwnL2(L1Index(g, k));
      SameTwice(g, old(s), s1, s);
    }

    /** get_cluster_offset with allocate == 1, for sectors a .. b - 1 of the guest cluster of sector k. */
    method GetClusterForWrite(k: nat, a: nat, b: nat) returns (c: nat)
      requires Valid() && a <= b <= g.cs && (Owns(k) || Reaches(k))
      modifies `s, `cache, `budget, rc
      ensures if old(Owns(k)) then rc.st == old(rc.st) && budget == old(budget)
        else budget >= old(budget) - ReachCost(g, |old(s.l1)|, k)
      ensures Valid() && Prepared(g, old(s), s, k, c, ClusterStart(g, k) + a, ClusterStart(g, k) + b)
      ensures Stretched(g, old(s), s, k)
    {
      hide Consistent, Bounded, Backs, Ample, L1Cost, L1Run, SameActiveDisk, SameSnapDisks, Prepared, GrownSize;
      var x := ReachL2(k);
      ghost var s1 := s;
      ActiveL2(g, s1, L1Index(g, k));
      var e := cache.tables[x][L2Index(g, k)];
      if e.copied {
        FlaggedLeaf(g, s1, L1Index(g, k), L2Index(g, k));
        c := e.cluster;
        ReadyAlready(g, s1, k, c, ClusterStart(g, k) + a, ClusterStart(g, k) + b);
      } else {
        c := AllocateLeaf(k, a, b, x);
      }
      ReadyCompose(g, old(s), s1, s, k, c, ClusterStart(g, k) + a, ClusterStart(g, k) + b);
    }

    /** Write sectors to the private data cluster c of guest sector k. */
    method WriteData(k: nat, c: nat, buf: seq<Sector>)
      requires Valid() && c != 0 && EntryOf(g, s.d, s.l1, k) == Entry(c, true) && k % g.cs + |buf| <= g.cs
      modifies `s
      ensures Valid() && SectorsWritten(g, old(s), s, k, buf) && SameSnapDisks(g, old(s), s) && Steady(old(s), s)
      ensures PrivateKept(g, old(s), s)
    {
      hide Backs, Consistent, Bounded, Coherent, SectorsWritten, SameSnapDisks, PrivateKept, EntryOf;
      PutAll(g, s, k, c, buf, cache);
      s := PutSectors(g, s, k, c, buf);
    }

    /** The part of a write that falls in one guest cluster. */
    method WriteChunk(k: nat, buf: seq<Sector>)
      requires Valid() && k % g.cs + |buf| <= g.cs && (Owns(k) || Reaches(k))
      modifies `s, `cache, `budget, rc
      ensures if old(Owns(k)) then rc.st == old(rc.st) && budget == old(budget)
        else budget >= old(budget) - ReachCost(g, |old(s.l1)|, k)
      ensures Valid() && SectorsWritten(g, old(s), s, k, buf) && SameSnapDisks(g, old(s), s)
      ensures Stretched(g, old(s), s, k) && PrivateKept(g, old(s), s)
    {
      hide Consistent, Coherent, Bounded, Backs, Ample, L1Cost, L1Run, ReachCost, SectorsWritten, SameSnapDisks,
           Outside, GrownSize, Look;
      var index := k % g.cs;
      var c := GetClusterForWrite(k, index, index + |buf|);
      ghost var s1 := s;
      WriteData(k, c, buf);
      WrittenAfterOutside(g, old(s), s1, s, k, buf);
      SnapsTwice(g, old(s), s1, s);
    }

    /** There is room for what a write of n sectors from k on may allocate. */
    ghost predicate Takes(k: nat, n: nat)
      reads this
    {
      && WriteNeed(g, s, k, n) <= budget
      && (WriteNeed(g, s, k, n) > 0 ==> Wide(Max(1, L1Run(g, |s.l1|, Entries(g, k, n)))))
    }

    /** qcow_write: the active disk changes in exactly these sectors, no snapshot changes. */
    method Write(k: nat, buf: seq<Sector>)
      requires Valid() && Takes(k, |buf|)
      modifies `s, `cache, `budget, rc
      ensures Valid() && SectorsWritten(g, old(s), s, k, buf) && SameSnapDisks(g, old(s), s)
      ensures StretchedSoFar(g, old(s), s, k, |buf|)
      ensures budget >= old(budget) - WriteNeed(g, old(s), k, |buf|)
      ensures WriteNeed(g, old(s), k, |buf|) == 0 ==> rc.st == old(rc.st)
    {
      hide Consistent, Coherent, Bounded, SectorsWritten, SameSnapDisks, Stretched, WrittenSoFar, WriteNeed, L1Run,
           Entries, Ample, Backs, L1Cost, PrivateKept, Shared;
      var n := 0;
      WrittenStart(g, s, k, buf);
      while n < |buf|
        invariant n <= |buf| && Valid() && WrittenSoFar(g, old(s), s, k, buf, n) && StretchedSoFar(g, old(s), s, k, n)
        invariant budget >= old(budget) - WriteNeed(g, old(s), k, |buf|) + WriteNeed(g, s, k + n, |buf| - n)
        invariant Takes(k + n, |buf| - n)
        invariant WriteNeed(g, old(s), k, |buf|) == 0 ==> rc.st == old(rc.st) && WriteNeed(g, s, k + n, |buf| - n) == 0
      {
        ghost var s1 := s;
        var m := Chunk(g, k + n, |buf| - n);
        ActiveLength(g, s1);
        TakesNext(k + n, |buf| - n);
        WriteChunk(k + n, buf[n..n + m]);
        NeedRest(g, s1, s, k + n, |buf| - n);
        if WriteNeed(g, s, k + n + m, |buf| - n - m) > 0 {
          WideLess(Max(1, L1Run(g, |s1.l1|, Entries(g, k + n, |buf| - n))),
            Max(1, L1Run(g, |s.l1|, Entries(g, k + n + m, |buf| - n - m))));
        }
        WrittenStep(g, old(s), s1, s, k, buf, n, m);
        StretchedStep(g, old(s), s1, s, k, n, m);
        n := n + m;
      }
      WrittenEnd(g, old(s), s, k, buf);
    }

    /** There is room for the first guest cluster. */
    lemma TakesNext(k: nat, n: nat)
      requires n > 0 && |s.l1| > 0 && Takes(k, n)
      ensures Owns(k) || (Reaches(k) && WriteNeed(g, s, k, n) > 0)
    {
      hide L1Cost, L1Run, L1Index, Entries, Ample, EntryOf;
      WriteNeedThen(g, s, k, n);
      if !Owns(k) {
        var most := Max(1, L1Run(g, |s.l1|, Entries(g, k, n)));
        WideLess(most, 1);
        WideLess(most, L1Run(g, |s.l1|, L1Index(g, k) + 1));
      }
    }

    lemma WideLess(n: nat, m: nat)
      requires Wide(n) && m <= n
      ensures Wide(m)
    {
      AmpleLess(g.L2Size(), g.BlockSize(), limit, n, m);
    }

    // ---------- Snapshot passes ----------

    /** Change the count of c by addend, or just look it up when addend is 0. */
    method VisitCluster(c: nat, addend: int) returns (count: int)
      requires -1 <= addend <= 1 && c != 0 && 0 <= CountOf(s.cnt, c) + addend <= MAX_COUNT
      requires Backed() && CountOf(s.cnt, c) > 0 && c !in s.meta
      modifies `s, rc
      ensures Backed() && count == CountOf(old(s.cnt), c) + addend
      ensures s == old(s).(cnt := s.cnt) && Bumped(old(s.cnt), s.cnt, c, addend)
    {
      if addend != 0 {
        count := UpdateClusterRefcount(c, addend);
      } else {
        count := GetRefcount(c);
      }
    }

    /** Visit the entries of the L2 table behind entry i of l1 and rewrite it with its new flags. */
    method WalkTable(l1: seq<Entry>, i: nat, addend: int, ghost s0: Img)
      requires RootInj(s0.d, l1) && InRange(s0, l1, addend) && -1 <= addend <= 1
      requires i < |l1| && l1[i].cluster in s0.d && s0.d[l1[i].cluster].Table? && l1[i].cluster != 0
      requires l1[i].cluster in s.d && s.d[l1[i].cluster] == s0.d[l1[i].cluster]
      requires CountsAt(s0, s.cnt, l1, addend, i, 0)
      requires Backed() && InUse(s0, l1) && s.meta == s0.meta
      modifies `s, rc
      ensures Backed()
      ensures CountsAt(s0, s.cnt, l1, addend, i, |TableAt(s0.d, l1[i].cluster)|)
      ensures s == old(s).(d := old(s.d)[l1[i].cluster := Table(FinalTable(s0,
        l1, addend, s0.d[l1[i].cluster].entries))], cnt := s.cnt)
    {
      hide CountsAt, RootInj, InRange, PathRefs, FinalCount, Backs;
      var t := s.d[l1[i].cluster].entries;
      var new2 := t;
      var j := 0;
      while j < |t|
        invariant j <= |t| && CountsAt(s0, s.cnt, l1, addend, i, j) && s == old(s).(cnt := s.cnt) && Backed()
        invariant |new2| == |t| && forall h :: 0 <= h < |t| ==>
          new2[h] == if h < j then FinalFlag(s0, l1, addend, t[h]) else t[h]
      {
        LeafVisit(s0, s.cnt, l1, addend, i, j);
        ghost var cnt := s.cnt;
        var count := 0;
        if t[j].cluster != 0 {
          count := VisitCluster(t[j].cluster, addend);
        }
        LeafBumped(s0, cnt, s.cnt, l1, addend, i, j);
        new2 := new2[j := Entry(t[j].cluster, count == 1)];
        j := j + 1;
      }
      assert new2 == FinalTable(s0, l1, addend, t);
      s := s.(d := s.d[l1[i].cluster := Table(new2)]);
    }

    /** Visit entry i of l1: the L2 table behind it, then that table's own cluster. */
    method WalkEntry(l1: seq<Entry>, i: nat, addend: int, ghost s0: Img) returns (e: Entry)
      requires RootShape(g, s0.d, l1) && RootInj(s0.d, l1) && InRange(s0, l1, addend) && -1 <= addend <= 1
      requires i < |l1| && CountsAt(s0, s.cnt, l1, addend, i, 0) && DiskAt(s0, s.d, l1, addend, i)
      requires Backed() && InUse(s0, l1) && s.meta == s0.meta
      modifies `s, rc
      ensures Backed()
      ensures CountsAt(s0, s.cnt, l1, addend, i + 1, 0) && DiskAt(s0, s.d, l1, addend, i + 1)
      ensures s == old(s).(d := s.d, cnt := s.cnt) && e == FinalFlag(s0, l1, addend, l1[i])
    {
      var l2 := l1[i].cluster;
      assert EntryShape(g, s0.d, l1[i]);
      DiskNext(s0, s.d, l1, addend, i);
      if l2 == 0 {
        EmptyVisit(s0, s.cnt, l1, addend, i);
        return l1[i];
      }
      TableUnvisited(s0, s.d, l1, addend, i);
      WalkTable(l1, i, addend, s0);
      TableVisit(s0, s.cnt, l1, addend, i);
      ghost var cnt := s.cnt;
      var count := VisitCluster(l2, addend);
      TableBumped(s0, cnt, s.cnt, l1, addend, i);
      e := Entry(l2, count == 1);
    }

    /** update_snapshot_refcount over the L1 table of n entries stored at cluster `at`. */
    method UpdateSnapshotRefcount(at: nat, n: nat, addend: int)
      requires at in s.d && s.d[at].L1Head? && n <= |s.d[at].entries| && -1 <= addend <= 1
      requires at == s.l1At ==> s.l1 == L1At(s.d, at, n)
      requires RootShape(g, s.d, L1At(s.d, at, n)) && RootInj(s.d, L1At(s.d, at, n))
      requires InRange(s, L1At(s.d, at, n), addend)
      requires Backed() && InUse(s, L1At(s.d, at, n))
      modifies `s, `cache, rc
      ensures Backed() && Passed(old(s), s, at, L1At(old(s.d), at, n), addend) && Coherent(s.d, s.cnt, cache)
    {
      hide Backs, CountsAt, DiskAt, RootInj, RootShape, InRange, InUse, PathRefs, Passed, FinalFlag;
      L2CacheReset();
      ghost var s0 := s;
      var l1 := s.d[at].entries[..n];
      var new1 := l1;
      var i := 0;
      WalkStart(s0, l1, addend);
      DiskStart(s0, l1, addend);
      while i < n
        invariant i <= n && CountsAt(s0, s.cnt, l1, addend, i, 0) && DiskAt(s0, s.d, l1, addend, i)
        invariant s == s0.(d := s.d, cnt := s.cnt) && |new1| == n && EmptyCache(cache) && Backed()
        invariant forall h :: 0 <= h < n ==> new1[h] == if h < i then FinalFlag(s0, l1, addend, l1[h]) else l1[h]
      {
        var e := WalkEntry(l1, i, addend, s0);
        new1 := new1[i := e];
        i := i + 1;
      }
      assert new1 == FinalTable(s0, l1, addend, l1);
      WalkIsPass(g, s0, s.d, s.cnt, at, l1, addend);
      EmptyCoherent(s.d, s.cnt, cache);
      s := WalkResult(s, s.d, s.cnt, at, new1);
    }

    // ---------- Snapshots ----------

    method FindNewSnapshotId() returns (id: string)
      ensures id == NewId(Ids(s.snaps))
      ensures forall m :: Largest(Ids(s.snaps), m) ==>
        if m < INT_MAX then AsInt(Strtoul(id)) == m + 1 else id == "-2147483648"
    {
      hide Strtoul, AsInt, Decimal, Largest, NewId;
      var max, i := 0, 0;
      var ids := Ids(s.snaps);
      while i < |ids|
        invariant i <= |ids| && max == IdMax(ids[..i])
      {
        var n := AsInt(Strtoul(ids[i]));
        assert ids[..i + 1][..i] == ids[..i];
        max := if n > max then n else max;
        i := i + 1;
      }
      assert ids[..i] == ids;
      id := if max < INT_MAX then Decimal(max + 1) else "-2147483648";
      NewIdIs(ids, id);
      forall m | Largest(ids, m) ensures if m < INT_MAX then AsInt(Strtoul(id)) == m + 1 else id == "-2147483648" {
        NewIdNext(ids, m);
      }
    }

    method FindSnapshotById(id: string) returns (i: int)
      ensures i == First(Ids(s.snaps), id)
    {
      i := 0;
      while i < |s.snaps|
        invariant 0 <= i <= |s.snaps| && forall j :: 0 <= j < i ==> Ids(s.snaps)[j] != id
      {
        if s.snaps[i].id == id {
          assert Ids(s.snaps)[i] == id;
          return;
        }
        i := i + 1;
      }
      i := -1;
    }

    method FindSnapshot(name: string) returns (i: int)
      ensures i == FindIn(Ids(s.snaps), Names(s.snaps), name) && Chosen(s.snaps, name, i)
    {
      FindInChosen(s.snaps, name);
      i := FindSnapshotById(name);
      if i >= 0 {
        return;
      }
      i := 0;
      while i < |s.snaps|
        invariant 0 <= i <= |s.snaps| && forall j :: 0 <= j < i ==> Names(s.snaps)[j] != name
      {
        if s.snaps[i].name == name {
          assert Names(s.snaps)[i] == name;
          return;
        }
        i := i + 1;
      }
      i := -1;
    }

    /** The size of the snapshot table in bytes. */
    method SnapshotsSize() returns (size: nat)
      ensures size == SnapBytes(s.snaps)
    {
      size := 0;
      var i := 0;
      while i < |s.snaps|
        invariant i <= |s.snaps| && size == SnapBytes(s.snaps[..i])
      {
        size := Align8(size) + 40 + |s.snaps[i].id| + |s.snaps[i].name|;
        i := i + 1;
        assert s.snaps[..i][..i - 1] == s.snaps[..i - 1];
      }
      assert s.snaps[..i] == s.snaps;
    }

    /** Store the snapshot table in a fresh run and free the old one. */
    method WriteSnapshots(ghost roots: seq<seq<Entry>>)
      requires Sound(g, s, roots) && Coherent(s.d, s.cnt, cache) && Bounded(s)
      requires Backed() && SnapClusters(g, s.snaps) + 1 <= budget && Wide(SnapClusters(g, s.snaps))
      requires (s.snaps != [] || s.snapLen > 0)
      modifies `s, `budget, rc
      ensures Coherent(s.d, s.cnt, cache) && Bounded(s)
      ensures OwnMoved(g, old(s), s) && SnapRoots(s.d, s.snaps) == SnapRoots(old(s.d), s.snaps)
      ensures s.snaps == old(s.snaps) && s.l1 == old(s.l1) && s.leaked == old(s.leaked)
      ensures Backed() && budget == old(budget) - SnapClusters(g, s.snaps) - 1 && s.snapLen == SnapClusters(g, s.snaps)
      ensures s.snaps != [] ==> s.snapAt in s.d && s.d[s.snapAt] == SnapHead(s.snaps)
      ensures SnapBytes(s.snaps) <= 512 * g.cs * s.snapLen < SnapBytes(s.snaps) + 512 * g.cs
    {
      hide SnapBytes, ByteClusters, PutSnaps, OwnMoved, Coherent, Bounded, SnapRoots, Kept, Freed, Exact, RootsOK,
           OwnRefs, Backs, Ample, RunOwned;
      var size := SnapshotsSize();
      ghost var s0 := s;
      SnapRunOwned(g, s0);
      if s.snapLen > 0 {
        assert InRun(s.snapAt, s.snapLen, s.snapAt);
        SnapRunOnce(g, s0, roots, s.snapAt);
      }
      SnapBytesPositive(g, s.snaps);
      var n := ByteClusters(g, size);
      ByteClustersHold(g, size);
      var at, s2 := SwapRun(n, s.snapAt, s.snapLen, roots);
      SnapsMovedAll(g, s0, s2, roots, at, n, s.cnt, cache);
      MoveSnapsKeeps(s0, s2, at, n, s.cnt);
      s := s.(d := PutSnaps(s.d, at, n, s.snaps), snapAt := at, snapLen := n);
    }

    /** Store a copy of the active L1 table as that of a new snapshot. */
    method AddSnapshot(id: string, name: string, ghost roots: seq<seq<Entry>>)
      requires Sound(g, s, roots) && Coherent(s.d, s.cnt, cache) && Bounded(s)
      requires Backed() && L1Clusters(g, |s.l1|) + 1 <= budget && Wide(L1Clusters(g, |s.l1|))
      modifies `s, `budget, rc
      ensures Backed() && budget == old(budget) - L1Clusters(g, |s.l1|) - 1 && s.snapLen == old(s.snapLen)
      ensures Coherent(s.d, s.cnt, cache) && Bounded(s)
      ensures OwnMoved(g, old(s), s) && SnapRoots(s.d, s.snaps) == SnapRoots(old(s.d), old(s.snaps)) + [s.l1]
      ensures |s.snaps| == |old(s.snaps)| + 1 && s.snaps[..|old(s.snaps)|] == old(s.snaps)
      ensures s.snaps[|old(s.snaps)|].id == id && s.snaps[|old(s.snaps)|].name == name
      ensures s.snaps[|old(s.snaps)|].l1Size == |s.l1|
      ensures s.l1 == old(s.l1) && s.leaked == old(s.leaked)
    {
      hide Backs, Ample;
      ghost var s0 := s;
      MetaCounted(g, s, roots);
      SoundLength(g, s, roots);
      L1ClustersPositive(g, |s.l1|);
      var at := AllocClusters(L1Clusters(g, |s.l1|));
      AddSnapAll(g, s0, s, roots, at, id, name, cache);
      s := AddSnap(g, s, at, id, name);
    }

    /** A pass over the active L1 table. */
    method PassActive(addend: int, ghost roots: seq<seq<Entry>>, ghost r: nat)
      requires Sound(g, s, roots) && r < |roots| && roots[r] == s.l1 && Bounded(s)
      requires -1 <= addend <= 1 && InRange(s, s.l1, addend) && Backed()
      modifies `s, `cache, rc
      ensures Backed() && Passed(old(s), s, old(s.l1At), old(s.l1), addend) && Coherent(s.d, s.cnt, cache) && Bounded(s)
    {
      hide Backs;
      ghost var s0 := s;
      assert RootOK(g, s.d, s.cnt, roots[r]) && RootInj(s.d, roots[r]);
      RootInUse(g, s, roots, r);
      UpdateSnapshotRefcount(s.l1At, |s.l1|, addend);
      BoundedPassed(s0, s, s0.l1At, s0.l1, addend);
    }

    /** A pass over the L1 table of snapshot i. */
    method PassSnapshot(i: nat)
      requires Sound(g, s, Roots(s)) && i < |s.snaps| < MAX_COUNT && Bounded(s) && Backed()
      modifies `s, `cache, rc
      ensures Backed()
      ensures Passed(old(s), s, old(s.snaps)[i].l1, L1At(old(s.d), old(s.snaps)[i].l1, old(s.snaps)[i].l1Size), -1)
      ensures Coherent(s.d, s.cnt, cache) && Bounded(s)
    {
      hide Backs;
      ghost var s0, roots := s, Roots(s);
      RootInUse(g, s, roots, i + 1);
      RangeDown(g, s, roots, i + 1);
      assert RootOK(g, s.d, s.cnt, roots[i + 1]) && RootInj(s.d, roots[i + 1]);
      assert s.snaps[i].l1 != s.l1At && StoredRun(g, s.d, s.snaps[i].l1, s.snaps[i].l1Size);
      UpdateSnapshotRefcount(s.snaps[i].l1, s.snaps[i].l1Size, -1);
      BoundedPassed(s0, s, s0.snaps[i].l1, roots[i + 1], -1);
    }

    /** There is room for what one more snapshot takes. */
    ghost predicate Captures(id: string, name: string)
      reads this
    {
      var n, m := L1Clusters(g, |s.l1|), SnapClusters(g, s.snaps + [Snapshot(0, 0, id, name)]);
      n + m + 2 <= budget && Wide(n) && Wide(m)
    }

    method SnapshotCreate(id: string, name: string) returns (r: int)
      requires Valid()
      requires var id1 := ActualId(Ids(s.snaps), id);
        id1 in Ids(s.snaps) || (|s.snaps| + 1 < MAX_COUNT && Captures(id1, name))
      modifies `s, `cache, `budget, rc
      ensures Valid() && s.leaked == old(s.leaked)
      ensures var id1 := ActualId(Ids(old(s.snaps)), id);
        if id1 in Ids(old(s.snaps)) then r == -ENOENT && s == old(s) && budget == old(budget)
        else r == 0 && Created(g, old(s), s, id1, name) && budget == old(budget) - CaptureCost(g, old(s), id1, name)
    {
      hide Consistent, Coherent, Bounded, Created, NewId, Backs, Captures, CaptureCost;
      var id1 := id;
      if id == "" {
        id1 := FindNewSnapshotId();
      }
      var found := FindSnapshotById(id1);
      if found >= 0 {
        return -ENOENT;
      }
      Capture(id1, name);
      r := 0;
    }

    method Capture(id: string, name: string)
      requires Valid() && |s.snaps| + 1 < MAX_COUNT && Captures(id, name)
      modifies `s, `cache, `budget, rc
      ensures Valid() && s.leaked == old(s.leaked) && Created(g, old(s), s, id, name)
      ensures budget == old(budget) - CaptureCost(g, old(s), id, name)
    {
      hide Backs, Ample, Created, SnapClusters, L1Clusters, PathRefs, Sound, RootsOK, Passed;
      ghost var s0, roots := s, Roots(s);
      ConsistentSound(g, s);
      RangeUp(g, s, roots, 0, s.l1);
      PassActive(1, roots, 0);
      ghost var s1 := s;
      PassedSizes(s0, s1, s0.l1At, s0.l1, 1);
      CreatePass(g, s0, s1, roots);
      AddSnapshot(id, name, roots[0 := s1.l1] + [s1.l1]);
      CreateStep(g, s0, s1, s, id, name);
      ghost var s3 := s;
      LabelClusters(g, s0.snaps, s3.snaps, id, name);
      SaveSnapshots();
      CreatedThen(g, s0, s3, s, id, name);
    }

    /** Write the snapshot table of a consistent image. */
    method SaveSnapshots()
      requires Sane() && SnapClusters(g, s.snaps) + 1 <= budget && Wide(SnapClusters(g, s.snaps))
      requires (s.snaps != [] || s.snapLen > 0)
      modifies `s, `budget, rc
      ensures Valid() && s.leaked == old(s.leaked) && s.l1 == old(s.l1)
      ensures SameActiveDisk(g, old(s), s) && SameSnapDisks(g, old(s), s)
      ensures budget == old(budget) - SnapClusters(g, s.snaps) - 1
    {
      hide Backs, Ample, SnapClusters;
      SnapBytesPositive(g, s.snaps);
      ghost var s0 := s;
      WriteSnapshots(Roots(s));
      OwnStep(g, s0, s);
    }

    /** Overwrite the active L1 table by that of snapshot i. */
    method CopyL1(i: nat, ghost roots: seq<seq<Entry>>)
      requires Sound(g, s, roots) && Coherent(s.d, s.cnt, cache) && i < |s.snaps| && s.snaps[i].l1Size <= |s.l1|
      modifies `s
      ensures s.cnt == old(s.cnt) && s.snaps == old(s.snaps) && Coherent(s.d, s.cnt, cache)
      ensures s.meta == old(s.meta) && s.snapLen == old(s.snapLen)
      ensures OwnMoved(g, old(s), s) && SnapRoots(s.d, s.snaps) == SnapRoots(old(s.d), s.snaps)
      ensures s.l1 == SnapRoots(s.d, s.snaps)[i]
      ensures s.leaked >= old(s.leaked)
      ensures (s.leaked == old(s.leaked) <==> L1Clusters(g, s.snaps[i].l1Size) == L1Clusters(g, |old(s.l1)|))
    {
      assert StoredRun(g, s.d, s.snaps[i].l1, s.snaps[i].l1Size);
      var l1 := s.d[s.snaps[i].l1].entries[..s.snaps[i].l1Size];
      OverlaidAll(g, s, l1, cache);
      assert SnapRoots(s.d, s.snaps)[i] == l1;
      s := Overlaid(g, s, l1);
    }

    /** There is room for the L1 table to grow to the size of snapshot i. */
    ghost predicate Restores(i: nat)
      requires i < |s.snaps|
      reads this
    {
      && L1Cost(g, |s.l1|, s.snaps[i].l1Size) <= budget
      && (|s.l1| < s.snaps[i].l1Size ==> Wide(L1Run(g, |s.l1|, s.snaps[i].l1Size)))
    }

    method SnapshotGoto(name: string) returns (r: int)
      requires Valid()
      requires var i := FindIn(Ids(s.snaps), Names(s.snaps), name); i < 0 || Restores(i)
      modifies `s, `cache, `budget, rc
      ensures Valid()
      ensures var i := FindIn(Ids(old(s.snaps)), Names(old(s.snaps)), name);
        if i < 0 then r == -ENOENT && s == old(s) && budget == old(budget)
        else
          && r == 0 && Restored(g, old(s), s, i) && Leaked(g, old(s), s, i)
          && budget >= old(budget) - L1Cost(g, |old(s.l1)|, old(s.snaps)[i].l1Size)
      ensures Chosen(old(s.snaps), name, FindIn(Ids(old(s.snaps)), Names(old(s.snaps)), name))
    {
      hide Consistent, Coherent, Bounded, Restored, Leaked, Backs, L1Cost, L1Run, Ample, Chosen, FindIn, Ids,
           Names;
      var i := FindSnapshot(name);
      if i < 0 {
        return -ENOENT;
      }
      Restore(i);
      r := 0;
    }

    method Restore(i: nat)
      requires Valid() && i < |s.snaps| && Restores(i)
      modifies `s, `cache, `budget, rc
      ensures Valid() && Restored(g, old(s), s, i) && Leaked(g, old(s), s, i)
      ensures budget >= old(budget) - L1Cost(g, |old(s.l1)|, old(s.snaps)[i].l1Size)
    {
      hide Backs, Ample, Restored, L1Clusters, PathRefs, Sound, RootsOK, Passed, L1Cost, L1Run, Coherent, Bounded,
           OwnMoved, InRange, Consistent, Plain, SnapsPlain, GrownSize, Lengthened;
      ghost var s0, roots := s, Roots(s);
      ConsistentSound(g, s);
      ActiveLength(g, s);
      RangeDown(g, s, roots, 0);
      PassActive(-1, roots, 0);
      ghost var s1 := s;
      PassedSizes(s0, s1, s0.l1At, s0.l1, -1);
      GotoDown(g, s0, s1);
      ghost var snapRoots := SnapRoots(s1.d, s1.snaps);
      var _ := GrowL1Table(s.snaps[i].l1Size, snapRoots);
      ghost var s2 := s;
      SnapsAfterMove(g, s1, s2);
      CopyL1(i, snapRoots);
      ghost var s3 := s;
      SameBounded(s2, s3);
      SnapsAfterMove(g, s2, s3);
      RangeUp(g, s, snapRoots, i, s.l1);
      PassActive(1, snapRoots, i);
      PassedSizes(s3, s, s3.l1At, s3.l1, 1);
      GotoUp(g, s3, s, i);
      RestoredAll(g, s0, s1, s2, s3, s, i);
    }

    /** Free the L1 table of snapshot i and forget the snapshot. */
    method DropSnapshot(i: nat, ghost roots: seq<seq<Entry>>)
      requires Sound(g, s, roots) && Coherent(s.d, s.cnt, cache) && Bounded(s) && i < |s.snaps| && Backed()
      modifies `s, rc
      ensures Backed()
      ensures s == DropSnap(old(s), i, s.cnt) && OwnMoved(g, old(s), s) && Coherent(s.d, s.cnt, cache) && Bounded(s)
    {
      hide Backs, Sound, OwnMoved, Coherent, Bounded, L1Clusters, Freed;
      ghost var s0 := s;
      SnapCounted(g, s, roots, i);
      BackedAhead(g, s.cnt, s.meta, rc.st, limit, budget);
      FreeClusters(s.snaps[i].l1, L1Clusters(g, s.snaps[i].l1Size));
      DropSnapAll(g, s0, i, s.cnt, cache);
      s := s.(snaps := Without(s.snaps, i));
    }

    /** There is room for the snapshot table without snapshot i. */
    ghost predicate Drops(i: nat)
      requires i < |s.snaps|
      reads this
    {
      SnapClusters(g, Without(s.snaps, i)) + 1 <= budget && Wide(SnapClusters(g, Without(s.snaps, i)))
    }

    /** What the shorter snapshot table took has been spent. */
    ghost predicate DropSpent(snaps: seq<Snapshot>, budget0: nat, i: nat)
      requires i < |snaps|
      reads this
    {
      budget == budget0 - SnapClusters(g, Without(snaps, i)) - 1
    }

    method Remove(i: nat)
      requires Valid() && i < |s.snaps| && Drops(i)
      modifies `s, `cache, `budget, rc
      ensures Valid() && Deleted(g, old(s), s, i) && s.leaked == old(s.leaked)
      ensures DropSpent(old(s.snaps), old(budget), i)
    {
      hide Backs, Ample, Deleted, SnapClusters, L1Clusters, PathRefs, Sound, RootsOK, Passed;
      ghost var s0 := s;
      ConsistentSound(g, s);
      PassSnapshot(i);
      ghost var s1, less := s, RootsBut(s0, i);
      SnapElsewhere(g, s0, i);
      PassedSizes(s0, s1, s0.snaps[i].l1, L1At(s0.d, s0.snaps[i].l1, s0.snaps[i].l1Size), -1);
      DeleteDown(g, s0, s1, i);
      RangeDown(g, s, less, 0);
      PassActive(0, less, 0);
      ghost var s2 := s;
      PassedSizes(s1, s2, s1.l1At, s1.l1, 0);
      DeletePasses(g, s0, s1, s2, i);
      DropSnapshot(i, less[0 := s2.l1]);
      ghost var s3 := s;
      DeleteStep(g, s0, s1, s2, i, s3.cnt);
      SaveSnapshots();
      DeletedThen(g, s0, s3, s, i);
    }

    method SnapshotDelete(name: string) returns (r: int)
      requires Valid()
      requires var i := FindIn(Ids(s.snaps), Names(s.snaps), name); i < 0 || Drops(i)
      modifies `s, `cache, `budget, rc
      ensures Valid() && s.leaked == old(s.leaked)
      ensures var i := FindIn(Ids(old(s.snaps)), Names(old(s.snaps)), name);
        if i < 0 then r == -ENOENT && s == old(s) && budget == old(budget)
        else r == 0 && Deleted(g, old(s), s, i) && DropSpent(old(s.snaps), old(budget), i)
      ensures Chosen(old(s.snaps), name, FindIn(Ids(old(s.snaps)), Names(old(s.snaps)), name))
    {
      hide Consistent, Coherent, Bounded, Deleted, Backs, SnapClusters, Ample, Chosen, FindIn, Without, Ids, Names;
      var i := FindSnapshot(name);
      if i < 0 {
        return -ENOENT;
      }
      Remove(i);
      r := 0;
    }

    // ---------- Runs ----------

    /** There is room for what an operation allocates. */
    ghost predicate Affords(op: Op)
      reads this
    {
      Need(g, s, op) <= budget && (Need(g, s, op) > 0 ==> Wide(Longest(g, s, op)))
    }

    /** An operation allocated no more than it needs. */
    ghost predicate Spent(s0: Img, limit0: nat, budget0: nat, op: Op)
      reads this
    {
      limit == limit0 && budget >= budget0 - Need(g, s0, op)
    }

    method DoWrite(k: nat, buf: seq<Sector>) returns (answer: Answer)
      requires Valid() && Affords(Op.Write(k, buf))
      modifies this, rc
      ensures Valid() && Refines(g, old(s), s, Op.Write(k, buf), answer)
      ensures Spent(old(s), old(limit), old(budget), Op.Write(k, buf))
    {
      hide Consistent, Coherent, Bounded, Backs, SectorsWritten, SameSnapDisks, StretchedSoFar, WriteNeed, L1Run, Ample;
      Write(k, buf);
      WriteView(g, old(s), s, k, buf);
      WriteLossless(g, old(s), s, k, buf);
      answer := Code(0);
    }

    method DoRead(k: nat, n: nat) returns (answer: Answer)
      requires Valid()
      modifies `cache
      ensures Valid() && Refines(g, old(s), s, Op.Read(k, n), answer)
    {
      ConsistentCanRead(g, s, cache);
      var buf := Read(k, n);
      ReadView(g, s, k, buf);
      answer := Got(buf);
    }

    method DoCreate(id: string, name: string) returns (answer: Answer)
      requires Valid() && CountsSuffice(s, Create(id, name)) && Affords(Create(id, name))
      modifies this, rc
      ensures Valid() && Refines(g, old(s), s, Create(id, name), answer)
      ensures Spent(old(s), old(limit), old(budget), Create(id, name))
    {
      hide Consistent, Coherent, Bounded, Created, Refines, Backs, Ample, SnapClusters, L1Clusters, View, NewId;
      ghost var id1 := ActualId(Ids(s.snaps), id);
      if id1 !in Ids(s.snaps) {
        WideLess(Longest(g, s, Create(id, name)), L1Clusters(g, |s.l1|));
        WideLess(Longest(g, s, Create(id, name)), SnapClusters(g, s.snaps + [Snapshot(0, 0, id1, name)]));
      }
      var r := SnapshotCreate(id, name);
      answer := Code(r);
      CreateRefines(g, old(s), s, id, name);
    }

    method DoGoto(name: string) returns (answer: Answer)
      requires Valid() && Affords(Goto(name))
      modifies this, rc
      ensures Valid() && Refines(g, old(s), s, Goto(name), answer)
      ensures Spent(old(s), old(limit), old(budget), Goto(name))
    {
      hide Consistent, Coherent, Bounded, Restored, Leaked, Refines, Backs, Ample, L1Run, L1Cost, Chosen;
      ghost var i := FindIn(Ids(s.snaps), Names(s.snaps), name);
      ActiveLength(g, s);
      if i >= 0 && |s.l1| < s.snaps[i].l1Size {
        L1CostCovers(g, |s.l1|, s.snaps[i].l1Size);
      }
      var r := SnapshotGoto(name);
      answer := Code(r);
      GotoRefines(g, old(s), s, name);
    }

    method DoDelete(name: string) returns (answer: Answer)
      requires Valid() && Affords(Delete(name))
      modifies this, rc
      ensures Valid() && Refines(g, old(s), s, Delete(name), answer)
      ensures Spent(old(s), old(limit), old(budget), Delete(name))
    {
      hide Consistent, Coherent, Bounded, Deleted, Refines, Backs, Ample, Chosen;
      var r := SnapshotDelete(name);
      answer := Code(r);
      DeleteRefines(g, old(s), s, name);
    }

    /** One operation, as the flat model has it. */
    method Do(op: Op) returns (answer: Answer)
      requires Valid() && CountsSuffice(s, op) && Affords(op)
      modifies this, rc
      ensures Valid() && Refines(g, old(s), s, op, answer) && Spent(old(s), old(limit), old(budget), op)
    {
      hide Consistent, Coherent, Bounded, Refines, Backs, Ample, View;
      match op {
        case Write(k, buf) => answer := DoWrite(k, buf);
        case Read(k, n) => answer := DoRead(k, n);
        case Create(id, name) => answer := DoCreate(id, name);
        case Goto(name) => answer := DoGoto(name);
        case Delete(name) => answer := DoDelete(name);
      }
    }

    /** The counts suffice for an operation, and the store, as it is now, has room for what the operation allocates. */
    ghost predicate Able(op: Op)
      reads this, rc
    {
      CountsSuffice(s, op) && (Need(g, s, op) == 0 || RoomFor(rc.st, Need(g, s, op), Longest(g, s, op)))
    }

    /** Measure the room anew, for a run of at most `run` clusters. */
    ghost method Measure(need: nat, run: nat)
      requires Valid() && RoomFor(rc.st, need, run)
      modifies `limit, `budget
      ensures Valid() && need <= budget && Wide(run)
    {
      hide Consistent, Coherent, Bounded, Ready, Mirrors, Room, Ample;
      var most: nat :| Room(rc.st, most, need) && Ample(rc.st.e, rc.st.b, most, run);
      limit, budget := most, need;
      MirrorsSizes(g, s.cnt, s.meta, rc.st);
    }

    /** Whatever was measured before, there is room for what it has room for. */
    lemma RoomSuffices(op: Op)
      requires Valid() && Affords(op)
      ensures Need(g, s, op) == 0 || RoomFor(rc.st, Need(g, s, op), Longest(g, s, op))
    {
      hide Consistent, Coherent, Bounded, Ready, Mirrors, Room, Ample, Need, Longest;
      if Need(g, s, op) > 0 {
        MirrorsSizes(g, s.cnt, s.meta, rc.st);
        RoomLess(rc.st, limit, budget, Need(g, s, op));
      }
    }

    /** What the run costs is still to be had, and there are few enough snapshots. */
    ghost predicate Planned(ops: seq<Op>)
      reads this
    {
      var f := View(g, s);
      && RunCost(g, f, ops) <= budget && RunAmple(g, limit, f, ops)
      && forall n :: 0 <= n < |ops| && ops[n].Create? ==> |Final(g, f, ops[..n]).frozen| + 1 < MAX_COUNT
    }

    /** In a planned run there is room for the next operation. */
    lemma PlannedNext(s0: Img, budget0: nat, ops: seq<Op>, n: nat)
      requires n < |ops| && View(g, s) == Final(g, View(g, s0), ops[..n])
      requires RunCost(g, View(g, s0), ops) <= budget0 && RunAmple(g, limit, View(g, s0), ops)
      requires ops[n].Create? ==> |Final(g, View(g, s0), ops[..n]).frozen| + 1 < MAX_COUNT
      requires budget >= budget0 - RunCost(g, View(g, s0), ops[..n])
      ensures Affords(ops[n]) && CountsSuffice(s, ops[n])
      ensures RunCost(g, View(g, s0), ops[..n + 1]) >= RunCost(g, View(g, s0), ops[..n]) + Need(g, s, ops[n])
    {
      hide View, OpCost, OpRun, Ample, Need, Longest, RunCost, RunAmple, Final;
      RunAt(g, limit, View(g, s0), ops, n);
      NeedBound(g, s, ops[n]);
      ViewSize(g, s);
      if Need(g, s, ops[n]) > 0 {
        WideLess(OpRun(g, View(g, s), ops[n]), Longest(g, s, ops[n]));
      }
    }

    /** Any run of operations, however long, does what the flat model does and answers what it answers, up to the first
        operation that the counts do not suffice for or that finds no room in the store. No cluster is lost unless the
        run restores a snapshot whose L1 table takes fewer clusters than the active one, once that has grown to at
        least the same number of entries. A run planned for goes on to its end. */
    method Run(ops: seq<Op>) returns (answers: seq<Answer>)
      requires Valid()
      modifies this, rc
      ensures Valid() && |answers| <= |ops| && (|answers| < |ops| ==> !Able(ops[|answers|]))
      ensures var done := ops[..|answers|];
        && View(g, s) == Final(g, View(g, old(s)), done) && answers == Replies(g, View(g, old(s)), done)
        && (s.leaked == old(s.leaked) <==> LosslessRun(g, View(g, old(s)), done))
      ensures old(Planned(ops)) ==>
        && |answers| == |ops| && limit == old(limit) && budget >= old(budget) - RunCost(g, View(g, old(s)), ops)
    {
      hide Consistent, Coherent, Bounded, View, Next, Reply, Lossless, Backs, OpCost, OpRun, Ample, RunAmple, Need,
           Longest, RoomFor, HasRoom, CountsSuffice;
      answers := [];
      ghost var s0, planned := s, Planned(ops);
      RunNone(g, s0);
      while |answers| < |ops|
        invariant |answers| <= |ops| && Valid() && RunRefines(g, s0, s, ops[..|answers|], answers)
        invariant planned ==>
          limit == old(limit) && budget >= old(budget) - RunCost(g, View(g, s0), ops[..|answers|])
      {
        ghost var s1 := s;
        var n := |answers|;
        var op := ops[n];
        if planned {
          PlannedNext(s0, old(budget), ops, n);
          RoomSuffices(op);
        }
        HasRoomIs(rc.st, Need(g, s, op), Longest(g, s, op));
        if !CountsSuffice(s, op) || (Need(g, s, op) > 0 && !HasRoom(rc.st, Need(g, s, op), Longest(g, s, op))) {
          return;
        }
        if !planned && Need(g, s, op) > 0 {
          Measure(Need(g, s, op), Longest(g, s, op));
        }
        var answer := Do(op);
        RunStep(g, s0, s1, s, ops[..n], op, answers, answer);
        answers := answers + [answer];
        assert ops[..n + 1] == ops[..n] + [op];
      }
      assert ops[..|ops|] == ops;
    }
  }

  /** A run from a new image: every read before the first restore gives what was last written, sector by sector, else
      what the backing disk holds, else zeros. */
  method NewRun(g: Geometry, sectors: Pos, ghost most: nat, ops: seq<Op>) returns (img: Image, answers: seq<Answer>)
    requires g.Valid() && Creatable(g, sectors) && FreshBudget(g, sectors, most) >= 0
    ensures img.Valid() && |answers| <= |ops| && (|answers| < |ops| ==> !img.Able(ops[|answers|]))
    ensures forall n: nat :: n < |answers| && ops[n].Read? && !Restoring(ops, n) ==>
      ReadsLast(g.backing, ops, n, answers[n])
  {
    hide Consistent, Coherent, Bounded, Backs, FreshBudget, Look, Final, Replies, ReadsLast, Restoring, Blank;
    img := new Image(g, sectors, most);
    ghost var f := View(g, img.s);
    NewDisk(g, img.s);
    answers := img.Run(ops);
    forall n: nat | n < |answers| && ops[n].Read? && !Restoring(ops, n)
      ensures ReadsLast(g.backing, ops, n, answers[n])
    {
      var done := ops[..|answers|];
      RepliesAt(g, f, done, n);
      assert done[..n] == ops[..n];
      ReadsLastWritten(g, f, ops, n);
    }
  }

  lemma NewDisk(g: Geometry, s: Img)
    requires forall k: nat ::
      if k < |g.backing| then Look(g, s.d, s.l1, k) == g.backing[k] else Blank(Look(g, s.d, s.l1, k))
    ensures forall y: nat ::
      if y < |g.backing| then At(View(g, s).disk, y) == g.backing[y] else Blank(At(View(g, s).disk, y))
  {
    hide Look, Blank;
    forall y: nat ensures At(View(g, s).disk, y) == Look(g, s.d, s.l1, y) {}
  }
}

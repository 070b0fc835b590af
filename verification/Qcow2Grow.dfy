/** From what the allocator returned to the next consistent image: relinking and growing the L1 table. */
module Qcow2Grow {
  import opened Arith
  import opened Qcow2Format
  import opened Qcow2State
  import opened Qcow2Relink
  import opened Qcow2Own
  import opened Qcow2Steps

  // ---------- Free one reference, then allocate one cluster ----------

  /** s1 is s after giving back one reference to `from` (nothing when it is 0); s2 is s1 after allocating `at`. */
  ghost predicate Swapped(s: Img, s1: Img, s2: Img, from: nat, at: nat) {
    && s1 == s.(cnt := s1.cnt) && Freed(s.cnt, s1.cnt, from, B(from != 0)) && Allocated(s1, s2, at, 1)
  }

  lemma SwapMoves(s: Img, s1: Img, s2: Img, from: nat, at: nat)
    requires Swapped(s, s1, s2, from, at) && (from != 0 ==> CountOf(s.cnt, from) >= 2)
    ensures Moved(s, s2, from, at) && Kept(s, s2.d, {})
  {
    assert InRun(at, 1, at);
    assert CountOf(s1.cnt, at) + B(InRun(from, B(from != 0), at)) == CountOf(s.cnt, at);
    forall c: nat
      ensures CountOf(s2.cnt, c) + B(c in s.meta) + B(c != 0 && c == from)
        == CountOf(s.cnt, c) + B(c in s2.meta) + B(c == at)
    {
      assert CountOf(s1.cnt, c) + B(InRun(from, B(from != 0), c)) == CountOf(s.cnt, c);
      assert InRun(at, 1, c) <==> c == at;
    }
    forall c | c in s.d && CountOf(s.cnt, c) > 0 && c !in s.meta ensures c in s2.d && s2.d[c] == s.d[c] {
      assert CountOf(s1.cnt, c) + B(InRun(from, B(from != 0), c)) == CountOf(s.cnt, c);
    }
  }

  /** The image once L1 entry i points to the freshly allocated L2 table at `at`. */
  function LinkL2(g: Geometry, s2: Img, i: nat, at: nat, t: seq<Entry>): Img
    requires i < |s2.l1| && s2.l1At in s2.d && s2.d[s2.l1At].L1Head? && i < |s2.d[s2.l1At].entries|
  {
    s2.(l1 := s2.l1[i := Entry(at, true)],
        d := s2.d[s2.l1At := L1Head(s2.d[s2.l1At].entries[i := Entry(at, true)])][at := Table(t)])
  }

  lemma ActiveL1Counted(g: Geometry, s: Img, roots: seq<seq<Entry>>)
    requires Sound(g, s, roots)
    ensures CountOf(s.cnt, s.l1At) > 0 && s.l1At in s.d && s.d[s.l1At].L1Head? && s.l1At !in s.meta
    ensures |s.l1| <= |s.d[s.l1At].entries|
  {
    L1ClustersPositive(g, |s.l1|);
    assert InRun(s.l1At, L1Clusters(g, |s.l1|), s.l1At);
    assert CountOf(s.cnt, s.l1At) == OwnRefs(g, s, s.l1At) + RootsRefs(s.d, roots, s.l1At);
  }

  /** An unflagged active L1 entry is empty or shared. */
  lemma L1EntryShared(g: Geometry, s: Img, i: nat)
    requires Consistent(g, s) && i < |s.l1| && !s.l1[i].copied
    ensures s.l1[i].cluster != 0 ==> CountOf(s.cnt, s.l1[i].cluster) >= 2 && s.l1[i].cluster !in s.meta
  {
    assert Roots(s)[0] == s.l1;
    assert FlagExact(s.cnt, s.l1[i]);
    if s.l1[i].cluster != 0 {
      PathLeaf(s.d, s.l1, i, 0);
      ReachedIsCounted(g, s, Roots(s), 0, s.l1[i].cluster);
    }
    SharedOrEmpty(g, s, Roots(s), s.l1[i]);
  }

  lemma L2Linked(g: Geometry, s: Img, s2: Img, i: nat, at: nat)
    requires i < |s.l1| && !s.l1[i].copied && s2 == s.(d := s2.d, cnt := s2.cnt, meta := s2.meta)
    requires Moved(s, s2, s.l1[i].cluster, at) && Kept(s, s2.d, {})
    requires CountOf(s.cnt, s.l1At) > 0 && s.l1At !in s.meta
    requires s.l1At in s.d && s.d[s.l1At].L1Head? && i < |s.d[s.l1At].entries|
    ensures s2.l1At in s2.d && s2.d[s2.l1At] == s.d[s.l1At]
    ensures L2Relinked(g, s, LinkL2(g, s2, i, at, TableOf(g, s.d, s.l1[i])), i, at)
  {
  }

  lemma L2FromAlloc(g: Geometry, s: Img, s1: Img, s2: Img, i: nat, at: nat)
    requires Consistent(g, s) && i < |s.l1| && !s.l1[i].copied && Swapped(s, s1, s2, s.l1[i].cluster, at)
    ensures s2.l1At in s2.d && s2.d[s2.l1At].L1Head? && i < |s2.d[s2.l1At].entries|
    ensures L2Relinked(g, s, LinkL2(g, s2, i, at, TableOf(g, s.d, s.l1[i])), i, at)
  {
    L1EntryShared(g, s, i);
    SwapMoves(s, s1, s2, s.l1[i].cluster, at);
    ActiveL1Counted(g, s, Roots(s));
    L2Linked(g, s, s2, i, at);
  }

  /** A table of the active disk is where it was after the swap. */
  lemma TableAfterSwap(g: Geometry, s: Img, s2: Img, i: nat)
    requires Consistent(g, s) && i < |s.l1| && s.l1[i].cluster != 0 && Kept(s, s2.d, {})
    ensures s.l1[i].cluster in s.d && s.l1[i].cluster in s2.d && s2.d[s.l1[i].cluster] == s.d[s.l1[i].cluster]
    ensures s.d[s.l1[i].cluster].Table? && CountOf(s.cnt, s.l1[i].cluster) > 0 && s.l1[i].cluster !in s.meta
  {
    assert Roots(s)[0] == s.l1;
    PathLeaf(s.d, s.l1, i, 0);
    ReachedIsCounted(g, s, Roots(s), 0, s.l1[i].cluster);
    assert RootOK(g, s.d, s.cnt, Roots(s)[0]);
    assert EntryShape(g, s.d, s.l1[i]);
  }

  /** The image once L2 entry j behind L1 entry i points to the freshly allocated data cluster at `at`. */
  function LinkLeaf(s2: Img, i: nat, j: nat, at: nat, sectors: seq<Sector>): Img
    requires i < |s2.l1| && j < |TableAt(s2.d, s2.l1[i].cluster)|
  {
    s2.(d := s2.d[at := Data(sectors)][s2.l1[i].cluster := Table(TableAt(s2.d,
      s2.l1[i].cluster)[j := Entry(at, true)])])
  }

  lemma LeafEntryShared(g: Geometry, s: Img, i: nat, j: nat)
    requires Consistent(g, s) && i < |s.l1| && s.l1[i].cluster != 0 && j < |TableAt(s.d, s.l1[i].cluster)|
    requires !TableAt(s.d, s.l1[i].cluster)[j].copied
    ensures var e := TableAt(s.d, s.l1[i].cluster)[j];
      e.cluster != 0 ==> CountOf(s.cnt, e.cluster) >= 2 && e.cluster !in s.meta
  {
    var e := TableAt(s.d, s.l1[i].cluster)[j];
    assert Roots(s)[0] == s.l1;
    assert TableExact(s.cnt, TableAt(s.d, s.l1[i].cluster));
    PathLeaf(s.d, s.l1, i, j);
    if e.cluster != 0 {
      ReachedIsCounted(g, s, Roots(s), 0, e.cluster);
    }
    SharedOrEmpty(g, s, Roots(s), e);
  }

  lemma LeafLinked(g: Geometry, s: Img, s2: Img, i: nat, j: nat, at: nat, sectors: seq<Sector>)
    requires i < |s.l1| && s.l1[i].cluster != 0 && s.l1[i].copied && s2 == s.(d := s2.d, cnt := s2.cnt, meta := s2.meta)
    requires s.l1[i].cluster in s.d && s.d[s.l1[i].cluster].Table? && CountOf(s.cnt, s.l1[i].cluster) > 0
    requires s.l1[i].cluster in s2.d && s2.d[s.l1[i].cluster] == s.d[s.l1[i].cluster]
    requires j < |TableAt(s.d, s.l1[i].cluster)| && !TableAt(s.d, s.l1[i].cluster)[j].copied
    requires Moved(s, s2, TableAt(s.d, s.l1[i].cluster)[j].cluster, at) && Kept(s, s2.d, {}) && |sectors| == g.cs
    ensures LeafRelinked(g, s, LinkLeaf(s2, i, j, at, sectors), i, j, at, sectors)
  {
  }

  lemma LeafFromAlloc(g: Geometry, s: Img, s1: Img, s2: Img, i: nat, j: nat, at: nat, sectors: seq<Sector>)
    requires Consistent(g, s) && i < |s.l1| && s.l1[i].cluster != 0 && s.l1[i].copied
    requires j < |TableAt(s.d, s.l1[i].cluster)| && !TableAt(s.d, s.l1[i].cluster)[j].copied
    requires Swapped(s, s1, s2, TableAt(s.d, s.l1[i].cluster)[j].cluster, at) && |sectors| == g.cs
    ensures TableAt(s2.d, s.l1[i].cluster) == TableAt(s.d, s.l1[i].cluster)
    ensures LeafRelinked(g, s, LinkLeaf(s2, i, j, at, sectors), i, j, at, sectors)
  {
    LeafEntryShared(g, s, i, j);
    SwapMoves(s, s1, s2, TableAt(s.d, s.l1[i].cluster)[j].cluster, at);
    TableAfterSwap(g, s, s2, i);
    LeafLinked(g, s, s2, i, j, at, sectors);
  }

  // ---------- The L2 cache ----------

  const L2_CACHE_SIZE: nat := 16
  const MAX_HITS: nat := 0xffffffff

  datatype L2Cache = L2Cache(offsets: seq<nat>, tables: seq<seq<Entry>>, hits: seq<nat>)

  /** Every slot in use holds exactly the table on disk, of a cluster in use; no table is cached twice. */
  predicate Coherent(d: Disk, cnt: map<nat, nat>, cache: L2Cache) {
    match cache
    case L2Cache(offsets, tables, hits) =>
      && |offsets| == L2_CACHE_SIZE && |tables| == L2_CACHE_SIZE && |hits| == L2_CACHE_SIZE
      && (forall x :: 0 <= x < L2_CACHE_SIZE && offsets[x] != 0 ==>
            offsets[x] in d && d[offsets[x]] == Table(tables[x]) && CountOf(cnt, offsets[x]) > 0)
      && (forall x, y :: 0 <= x < y < L2_CACHE_SIZE && offsets[x] != 0 ==> offsets[x] != offsets[y])
      && (forall x :: 0 <= x < L2_CACHE_SIZE ==> hits[x] < MAX_HITS)
  }

  lemma CoherentKept(g: Geometry, s: Img, s': Img, cache: L2Cache, except: set<nat>)
    requires OwnShape(g, s) && Coherent(s.d, s.cnt, cache) && Kept(s, s'.d, except)
    requires forall x :: 0 <= x < L2_CACHE_SIZE && cache.offsets[x] != 0 ==>
      cache.offsets[x] !in except && CountOf(s'.cnt, cache.offsets[x]) > 0
    ensures Coherent(s'.d, s'.cnt, cache)
  {
    forall x | 0 <= x < L2_CACHE_SIZE && cache.offsets[x] != 0
      ensures cache.offsets[x] in s'.d && s'.d[cache.offsets[x]] == Table(cache.tables[x])
    {
      assert cache.offsets[x] !in s.meta;
    }
  }

  const MAX_COUNT: nat := 0xffff

  /** Counts fit in 16 bits. */
  ghost predicate Bounded(s: Img) {
    match s
    case Img(_, cnt, _, _, _, _, _, _, _) => forall c: nat :: CountOf(cnt, c) <= MAX_COUNT
  }

  /** A cluster in use stays in use when a reference moves away from a shared cluster. */
  lemma StillCounted(s: Img, s': Img, from: nat, to: nat, c: nat)
    requires Moved(s, s', from, to) && (from != 0 ==> CountOf(s.cnt, from) >= 2)
    requires CountOf(s.cnt, c) > 0 && c !in s.meta
    ensures CountOf(s'.cnt, c) > 0
  {
  }

  // ---------- Moving the active L1 table ----------

  /** The clusters of a run after the first, marked as belonging to the table at its head. */
  function PutTails(d: Disk, at: nat, n: nat): Disk {
    if n <= 1 then d else PutTails(d, at, n - 1)[at + n - 1 := L1Tail(at)]
  }

  /** An L1 table written to the run of n clusters at `at`. */
  function PutL1(d: Disk, at: nat, n: nat, l1: seq<Entry>): Disk {
    PutTails(d, at, n)[at := L1Head(l1)]
  }

  lemma {:induction false} PutTailsAt(d: Disk, at: nat, n: nat)
    ensures forall k: nat ::
      InRun(at, n, k) && k != at ==> k in PutTails(d, at, n) && PutTails(d, at, n)[k] == L1Tail(at)
    ensures forall k: nat :: !InRun(at, n, k) && k in d ==> k in PutTails(d, at, n) && PutTails(d, at, n)[k] == d[k]
  {
    if n > 1 {
      PutTailsAt(d, at, n - 1);
    }
  }

  lemma PutL1At(d: Disk, at: nat, n: nat, l1: seq<Entry>)
    requires n > 0
    ensures forall k: nat :: InRun(at, n, k) ==>
      k in PutL1(d, at, n, l1) && PutL1(d, at, n, l1)[k] == if k == at then L1Head(l1) else L1Tail(at)
    ensures forall k: nat :: !InRun(at, n, k) && k in d ==> k in PutL1(d, at, n, l1) && PutL1(d, at, n, l1)[k] == d[k]
  {
    PutTailsAt(d, at, n);
  }

  /** The active L1 table is now `l1`, in the freshly allocated run at `at`; `cnt` is what freeing the old run left. */
  function MoveL1(g: Geometry, s2: Img, at: nat, l1: seq<Entry>, cnt: map<nat, nat>): Img {
    s2.(d := PutL1(s2.d, at, L1Clusters(g, |l1|), l1), cnt := cnt, l1At := at, l1 := l1)
  }

  lemma OwnCounted(g: Geometry, s: Img, roots: seq<seq<Entry>>, c: nat)
    requires Exact(g, s, roots) && OwnRefs(g, s, c) > 0
    ensures CountOf(s.cnt, c) > 0
  {
    assert CountOf(s.cnt, c) == OwnRefs(g, s, c) + RootsRefs(s.d, roots, c);
  }

  /** The first cluster of a snapshot's L1 table is in use. */
  lemma SnapL1Counted(g: Geometry, s: Img, roots: seq<seq<Entry>>, i: nat)
    requires Sound(g, s, roots) && i < |s.snaps|
    ensures CountOf(s.cnt, s.snaps[i].l1) > 0
  {
    assert StoredRun(g, s.d, s.snaps[i].l1, s.snaps[i].l1Size);
    L1ClustersPositive(g, s.snaps[i].l1Size);
    SnapRunCounted(g, s, i, s.snaps[i].l1);
    OwnCounted(g, s, roots, s.snaps[i].l1);
  }

  lemma MoveL1Keeps(g: Geometry, s: Img, s2: Img, at: nat, l1: seq<Entry>, cnt: map<nat, nat>)
    requires Allocated(s, s2, at, L1Clusters(g, |l1|)) && |l1| > 0
    ensures Kept(s, MoveL1(g, s2, at, l1, cnt).d, {}) && StoredL1(g, MoveL1(g, s2, at, l1, cnt).d, at, l1)
    ensures forall c ::
      c in s2.meta ==> c in MoveL1(g, s2, at, l1, cnt).d && MoveL1(g, s2, at, l1, cnt).d[c].Refcounting()
  {
    var n, d' := L1Clusters(g, |l1|), MoveL1(g, s2, at, l1, cnt).d;
    L1ClustersPositive(g, |l1|);
    PutL1At(s2.d, at, n, l1);
    assert InRun(at, n, at);
    forall k | at < k < at + n ensures k in d' && d'[k] == L1Tail(at) {
      assert InRun(at, n, k);
    }
    forall c: nat | c in s.d && CountOf(s.cnt, c) > 0 && c !in s.meta ensures c in d' && d'[c] == s.d[c] {
      assert !InRun(at, n, c);
    }
    forall c | c in s2.meta ensures c in d' && d'[c].Refcounting() {
      assert !InRun(at, n, c);
    }
  }

  lemma MoveL1Own(g: Geometry, s: Img, s2: Img, roots: seq<seq<Entry>>, at: nat, l1: seq<Entry>, cnt: map<nat, nat>)
    requires Sound(g, s, roots) && |l1| > 0 && Allocated(s, s2, at, L1Clusters(g, |l1|))
    ensures OwnShape(g, MoveL1(g, s2, at, l1, cnt))
    ensures SnapRoots(MoveL1(g, s2, at, l1, cnt).d, s.snaps) == SnapRoots(s.d, s.snaps)
  {
    var s3 := MoveL1(g, s2, at, l1, cnt);
    MoveL1Keeps(g, s, s2, at, l1, cnt);
    OwnKept(g, s, s3.d, roots, {});
    forall i | 0 <= i < |s.snaps| ensures s.snaps[i].l1 != at {
      SnapL1Counted(g, s, roots, i);
      assert InRun(at, L1Clusters(g, |l1|), at) by { L1ClustersPositive(g, |l1|); }
    }
  }

  lemma MoveL1Counts(g: Geometry, s: Img, s2: Img, at: nat, l1: seq<Entry>, cnt: map<nat, nat>)
    requires Allocated(s, s2, at, L1Clusters(g, |l1|)) && Freed(s2.cnt, cnt, s.l1At, L1Clusters(g, |s.l1|))
    ensures forall c: nat ::
      CountOf(cnt, c) + OwnRefs(g, s, c) == CountOf(s.cnt, c) + OwnRefs(g, MoveL1(g, s2, at, l1, cnt), c)
  {
    forall c: nat
      ensures CountOf(cnt, c) + OwnRefs(g, s, c) == CountOf(s.cnt, c) + OwnRefs(g, MoveL1(g, s2, at, l1, cnt), c)
    {
      assert CountOf(cnt, c) + B(InRun(s.l1At, L1Clusters(g, |s.l1|), c)) == CountOf(s2.cnt, c);
    }
  }

  lemma MoveL1Paths(g: Geometry, s: Img, s2: Img, at: nat, n: nat, cnt: map<nat, nat>, c: nat)
    requires Allocated(s, s2, at, n) && Freed(s2.cnt, cnt, s.l1At, L1Clusters(g, |s.l1|)) && OwnShape(g, s)
    requires CountOf(s.cnt, c) > 0 && c in s.d && (s.d[c].Table? || s.d[c].Data?)
    ensures CountOf(cnt, c) == CountOf(s.cnt, c)
  {
    assert !InRun(at, n, c) && c !in s.meta && c !in s2.meta;
    assert CountOf(cnt, c) + B(InRun(s.l1At, L1Clusters(g, |s.l1|), c)) == CountOf(s2.cnt, c);
  }

  /** Moving the active L1 table to a fresh run and freeing the old one leaves every path alone. */
  lemma MoveL1Moves(g: Geometry, s: Img, s2: Img, s': Img, roots: seq<seq<Entry>>, at: nat, l1: seq<Entry>)
    requires Sound(g, s, roots) && |l1| > 0 && Allocated(s, s2, at, L1Clusters(g, |l1|))
    requires Freed(s2.cnt, s'.cnt, s.l1At, L1Clusters(g, |s.l1|)) && s' == MoveL1(g, s2, at, l1, s'.cnt)
    ensures OwnMoved(g, s, s') && SnapRoots(s'.d, s.snaps) == SnapRoots(s.d, s.snaps)
    ensures s'.l1 == l1 && s'.snaps == s.snaps
  {
    MoveL1Keeps(g, s, s2, at, l1, s'.cnt);
    MoveL1Own(g, s, s2, roots, at, l1, s'.cnt);
    MoveL1Counts(g, s, s2, at, l1, s'.cnt);
    forall c: nat | CountOf(s.cnt, c) > 0 && c in s.d && (s.d[c].Table? || s.d[c].Data?)
      ensures CountOf(s'.cnt, c) == CountOf(s.cnt, c)
    {
      MoveL1Paths(g, s, s2, at, L1Clusters(g, |l1|), s'.cnt, c);
    }
  }

  /** Between allocating a new run and freeing one the image holds, the latter is still counted. */
  lemma RunStillCounted(g: Geometry, s: Img, s2: Img, roots: seq<seq<Entry>>, at: nat, n: nat, old1: nat, m: nat)
    requires Sound(g, s, roots) && Allocated(s, s2, at, n) && Bounded(s)
    requires RunOwned(g, s, old1, m)
    ensures forall c: nat :: InRun(old1, m, c) ==> 0 < CountOf(s2.cnt, c) <= MAX_COUNT && c !in s2.meta && c != 0
  {
    forall c: nat | InRun(old1, m, c) ensures 0 < CountOf(s2.cnt, c) <= MAX_COUNT && c !in s2.meta && c != 0 {
      OwnCounted(g, s, roots, c);
    }
  }

  /** A run that the image holds, with no refcount metadata in it. */
  ghost predicate RunOwned(g: Geometry, s: Img, at: nat, n: nat) {
    forall c: nat :: InRun(at, n, c) ==>
      OwnRefs(g, s, c) > 0 && c !in s.meta && c != 0 && c in s.d && !s.d[c].Refcounting()
  }

  lemma ActiveRunOwned(g: Geometry, s: Img)
    requires OwnShape(g, s)
    ensures RunOwned(g, s, s.l1At, L1Clusters(g, |s.l1|))
  {
  }

  lemma MetaCounted(g: Geometry, s: Img, roots: seq<seq<Entry>>)
    requires Sound(g, s, roots)
    ensures forall c :: c in s.meta ==> CountOf(s.cnt, c) > 0 && c in s.d && s.d[c].Refcounting()
  {
    forall c | c in s.meta ensures CountOf(s.cnt, c) > 0 {
      OwnCounted(g, s, roots, c);
    }
  }

  lemma CoherentMoved(g: Geometry, s: Img, s': Img, cache: L2Cache)
    requires OwnShape(g, s) && Coherent(s.d, s.cnt, cache) && OwnMoved(g, s, s')
    ensures Coherent(s'.d, s'.cnt, cache)
  {
    CoherentKept(g, s, s', cache, {s.l1At});
  }

  lemma OwnMovedRefl(g: Geometry, s: Img)
    requires OwnShape(g, s)
    ensures OwnMoved(g, s, s)
  {
  }

  /** What moving the active L1 table gives, all at once. */
  lemma L1MovedAll(g: Geometry, s: Img, s2: Img, roots: seq<seq<Entry>>, at: nat, l1: seq<Entry>, cnt: map<nat, nat>,
      cache: L2Cache)
    requires Sound(g, s, roots) && |l1| > 0 && Allocated(s, s2, at, L1Clusters(g, |l1|))
    requires Freed(s2.cnt, cnt, s.l1At, L1Clusters(g, |s.l1|))
    requires Coherent(s.d, s.cnt, cache) && Bounded(s)
    ensures var s' := MoveL1(g, s2, at, l1, cnt);
      && OwnMoved(g, s, s') && SnapRoots(s'.d, s.snaps) == SnapRoots(s.d, s.snaps)
      && Coherent(s'.d, s'.cnt, cache) && Bounded(s')
  {
    var s' := MoveL1(g, s2, at, l1, cnt);
    MoveL1Moves(g, s, s2, s', roots, at, l1);
    CoherentMoved(g, s, s', cache);
    forall c: nat ensures CountOf(s'.cnt, c) <= MAX_COUNT {
      assert CountOf(s'.cnt, c) + B(InRun(s.l1At, L1Clusters(g, |s.l1|), c)) == CountOf(s2.cnt, c);
    }
  }

  // ---------- Lengthening the active root ----------

  function Lengthened(l1: seq<Entry>, n: nat): seq<Entry> { l1 + seq(n, _ => NIL) }

  /** The size grow_l1_table gives a table of `size` entries that must hold `min`. */
  function GrownSize(size: nat, min: nat): (r: nat)
    requires size > 0
    ensures r >= min && r >= size && (min <= size ==> r == size)
    decreases min - size
  {
    if min <= size then size else GrownSize((size * 3 + 1) / 2, min)
  }

  /** It is the first of the sizes that growing by one half gives which is large enough. */
  lemma {:induction false} GrownFirst(size: nat, min: nat) returns (k: nat)
    requires size > 0
    ensures GrownSize(size, min) == LargerTimes(size, k) >= min && forall j: nat :: j < k ==> LargerTimes(size, j) < min
    decreases min - size
  {
    if min <= size {
      k := 0;
    } else {
      var n := GrownFirst(Larger(size), min);
      k := n + 1;
      LargerFrom(size, k - 1);
      forall j: nat | j < k ensures LargerTimes(size, j) < min {
        if j > 0 {
          LargerFrom(size, j - 1);
        }
      }
    }
  }

  lemma LengthenRoot(g: Geometry, s: Img, l1: seq<Entry>, n: nat)
    requires RootOK(g, s.d, s.cnt, l1) && RootInj(s.d, l1)
    ensures RootOK(g, s.d, s.cnt, Lengthened(l1, n)) && RootInj(s.d, Lengthened(l1, n))
    ensures RootExact(s.d, s.cnt, l1) ==> RootExact(s.d, s.cnt, Lengthened(l1, n))
    ensures forall c: nat :: PathRefs(s.d, Lengthened(l1, n), c) == PathRefs(s.d, l1, c)
    ensures forall k: nat :: Look(g, s.d, Lengthened(l1, n), k) == Look(g, s.d, l1, k)
    ensures forall k: nat :: EntryOf(g, s.d, Lengthened(l1, n), k) == EntryOf(g, s.d, l1, k)
  {
    var m := Lengthened(l1, n);
    forall c: nat ensures PathRefs(s.d, m, c) == PathRefs(s.d, l1, c) {
      PathExtend(s.d, l1, n, c);
    }
    assert forall c: nat :: PathRefs(s.d, l1, c) <= 1;
    forall i | 0 <= i < |m| ensures i < |l1| ==> m[i] == l1[i] ensures i >= |l1| ==> m[i] == NIL {}
    assert forall i :: 0 <= i < |l1| ==> EntryShape(g, s.d, l1[i]);
  }

  lemma LengthenSound(g: Geometry, s: Img, roots: seq<seq<Entry>>, n: nat)
    requires |roots| > 0 && Sound(g, s, roots)
    ensures Sound(g, s, roots[0 := Lengthened(roots[0], n)])
    ensures RootExact(s.d, s.cnt, roots[0]) ==> RootExact(s.d, s.cnt, Lengthened(roots[0], n))
    ensures forall k: nat :: Look(g, s.d, Lengthened(roots[0], n), k) == Look(g, s.d, roots[0], k)
                          && EntryOf(g, s.d, Lengthened(roots[0], n), k) == EntryOf(g, s.d, roots[0], k)
  {
    assert RootOK(g, s.d, s.cnt, roots[0]) && RootInj(s.d, roots[0]);
    LengthenRoot(g, s, roots[0], n);
    var roots' := roots[0 := Lengthened(roots[0], n)];
    forall c: nat ensures CountOf(s.cnt, c) == OwnRefs(g, s, c) + RootsRefs(s.d, roots', c) {
      RootsSame(s.d, roots, s.d, roots', c);
    }
  }

  /** The active L1 table grown by n empty entries: the invariant and every guest disk are as before. */
  lemma GrowStep(g: Geometry, s: Img, s': Img, n: nat)
    requires Consistent(g, s) && OwnMoved(g, s, s') && s'.l1 == Lengthened(s.l1, n)
    requires s'.snaps == s.snaps && SnapRoots(s'.d, s.snaps) == SnapRoots(s.d, s.snaps)
    ensures Consistent(g, s') && SameActiveDisk(g, s, s') && SameSnapDisks(g, s, s')
  {
    GrowKeeps(g, s, s', Roots(s), n);
    Assemble(g, s, s');
  }

  lemma GrowKeeps(g: Geometry, s: Img, s': Img, roots: seq<seq<Entry>>, n: nat)
    requires |roots| > 0 && roots[0] == s.l1 && Sound(g, s, roots) && RootExact(s.d, s.cnt, s.l1)
    requires OwnMoved(g, s, s') && s'.l1 == Lengthened(s.l1, n)
    ensures Sound(g, s', roots[0 := s'.l1]) && RootExact(s'.d, s'.cnt, s'.l1)
    ensures SameActiveDisk(g, s, s') && OthersSame(g, s, s', roots)
  {
    OwnMovedKeeps(g, s, s', roots);
    LengthenSound(g, s', roots, n);
    assert PathsKept(g, s.d, s'.d, roots[0]);
  }
}

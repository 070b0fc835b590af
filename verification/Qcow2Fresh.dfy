/** A newly created image. */
module Qcow2Fresh {
  import opened Sums
  import opened Arith
  import opened Qcow2Format
  import opened Qcow2State
  import opened Qcow2Relink
  import opened Qcow2Grow
  import opened RefcountState
  import opened RefcountSteps
  import opened RefcountRuns
  import opened RefcountAlloc
  import opened RefcountRoom
  import opened RefcountLink

  const NO_CACHE: L2Cache :=
    L2Cache([0, 0, 0, 0, 0, 0, 0, 0, 0, 0, 0, 0, 0, 0, 0, 0],
            [[], [], [], [], [], [], [], [], [], [], [], [], [], [], [], []],
            [0, 0, 0, 0, 0, 0, 0, 0, 0, 0, 0, 0, 0, 0, 0, 0])

  function Nils(n: nat): (r: seq<Entry>)
    ensures |r| == n && forall i :: 0 <= i < n ==> r[i] == NIL
  {
    seq(n, _ => NIL)
  }

  /** The L1 table of a new image. */
  function FreshL1(g: Geometry, sectors: Pos): seq<Entry> { Nils(L1Index(g, sectors - 1) + 1) }

  /** One refcount block has to count the header, the L1 table, the refcount table and itself. */
  predicate Creatable(g: Geometry, sectors: Pos) { L1Clusters(g, |FreshL1(g, sectors)|) + 3 <= g.BlockSize() }

  /** The header, the L1 table, the refcount table and its one block, in this order. */
  function NewStore(g: Geometry, sectors: Pos): Store {
    var l1 := FreshL1(g, sectors);
    var n := L1Clusters(g, |l1|);
    FreshStore(g.BlockSize(), g.L2Size(), PutL1(map[0 := Header], 1, n, l1), n)
  }

  function FreshImg(g: Geometry, sectors: Pos): Img {
    Synced(Img(map[], map[], {}, 1, FreshL1(g, sectors), [], 0, 0, multiset{}), NewStore(g, sectors))
  }

  lemma NewStoreIs(g: Geometry, sectors: Pos)
    requires Creatable(g, sectors)
    ensures var st, n := NewStore(g, sectors), L1Clusters(g, |FreshL1(g, sectors)|);
      && Ready(st) && (forall c: nat :: Count(st, c) == B(c < n + 3))
      && (forall c: nat :: IsMeta(st, c) <==> c == n + 1 || c == n + 2)
      && st.d == PutL1(map[0 := Header], 1, n, FreshL1(g, sectors))[n + 1 := st.d[n + 1]][n + 2 := st.d[n + 2]]
      && st.d[n + 1].RefTable? && st.d[n + 2].RefBlock? && st.b == g.BlockSize() && st.e == g.L2Size()
  {
    hide Count, Inv, PutL1, L1Clusters, Settled, Ahead, Prefix;
    var n := L1Clusters(g, |FreshL1(g, sectors)|);
    FreshReady(g.BlockSize(), g.L2Size(), PutL1(map[0 := Header], 1, n, FreshL1(g, sectors)), n);
    var st := NewStore(g, sectors);
    DivUnique(st.e, st.e, 1, 0);
    assert st.table[0] == n + 2;
    forall c: nat ensures IsMeta(st, c) <==> c == n + 1 || c == n + 2 {
      assert c in st.table && c != 0 ==> c == n + 2;
    }
  }

  lemma FreshFields(g: Geometry, sectors: Pos)
    ensures var s := FreshImg(g, sectors);
      s.leaked == multiset{} && s.snaps == [] && s.l1 == FreshL1(g, sectors) && |s.l1| == L1Index(g, sectors - 1) + 1
  {
  }

  lemma FreshCounts(g: Geometry, sectors: Pos)
    requires Creatable(g, sectors)
    ensures var s, n := FreshImg(g, sectors), L1Clusters(g, |FreshL1(g, sectors)|);
      (forall c: nat :: CountOf(s.cnt, c) == B(c < n + 3)) && s.meta == {n + 1, n + 2}
  {
    hide Count, Inv, PutL1, L1Clusters, Settled, Ahead, Prefix, IsMeta, NewStore, CountMap, MetaSet;
    NewStoreIs(g, sectors);
    CountMapAt(NewStore(g, sectors));
    MetaSetIs(NewStore(g, sectors));
  }

  lemma FreshShape(g: Geometry, sectors: Pos)
    requires Creatable(g, sectors)
    ensures OwnShape(g, FreshImg(g, sectors))
  {
    hide Count, Inv, PutL1, L1Clusters, Settled, Ahead, Prefix, IsMeta, NewStore, CountMap, MetaSet, FreshL1;
    var s := FreshImg(g, sectors);
    var n := L1Clusters(g, |s.l1|);
    FreshCounts(g, sectors);
    NewStoreIs(g, sectors);
    FreshLength(g, sectors);
    L1ClustersPositive(g, |s.l1|);
    PutL1At(map[0 := Header], 1, n, s.l1);
  }

  lemma FreshLength(g: Geometry, sectors: Pos)
    ensures |FreshL1(g, sectors)| > 0
  {
  }

  lemma {:induction false} NilPaths(d: Disk, n: nat, c: nat)
    ensures PathRefs(d, Nils(n), c) == 0
  {
    if PathRefs(d, Nils(n), c) > 0 {
      var i := SumWitness(PathWeights(d, Nils(n), c));
    }
  }

  lemma FreshConsistent(g: Geometry, sectors: Pos)
    requires Creatable(g, sectors)
    ensures Consistent(g, FreshImg(g, sectors))
  {
    hide PathRefs, L1Clusters, OwnShape, PutL1, NewStore, CountMap, MetaSet;
    var s := FreshImg(g, sectors);
    FreshShape(g, sectors);
    FreshCounts(g, sectors);
    forall c: nat ensures PathRefs(s.d, s.l1, c) == 0 {
      NilPaths(s.d, |s.l1|, c);
    }
  }

  lemma FreshRest(g: Geometry, sectors: Pos)
    requires Creatable(g, sectors)
    ensures var s := FreshImg(g, sectors);
      Coherent(s.d, s.cnt, NO_CACHE) && Bounded(s) && forall k: nat :: Look(g, s.d, s.l1, k) == Backing(g, k)
  {
    hide PutL1, L1Clusters, NewStore, CountMap, MetaSet;
    FreshCounts(g, sectors);
  }

  /** The clusters a new image leaves below a limit, longer refcount tables set aside. */
  function FreshBudget(g: Geometry, sectors: Pos, limit: nat): int {
    limit - L1Clusters(g, |FreshL1(g, sectors)|) - 3 - Reserve(1, g.L2Size(), g.BlockSize(), limit)
  }

  /** The store of a new image backs it. */
  lemma FreshBacks(g: Geometry, sectors: Pos, limit: nat)
    requires Creatable(g, sectors) && FreshBudget(g, sectors, limit) >= 0
    ensures var s := FreshImg(g, sectors);
      Backs(g, s.cnt, s.meta, NewStore(g, sectors), limit, FreshBudget(g, sectors, limit))
  {
    hide Count, Inv, PutL1, L1Clusters, Settled, Ahead, Prefix, IsMeta, CountMap, MetaSet, FreshStore, Room, Reserve;
    var l1 := FreshL1(g, sectors);
    var n := L1Clusters(g, |l1|);
    NewStoreIs(g, sectors);
    SyncedMirrors(g, NewStore(g, sectors));
    RoomFresh(g.BlockSize(), g.L2Size(), PutL1(map[0 := Header], 1, n, l1), n, limit, FreshBudget(g, sectors, limit));
  }

  // ---------- A run that comes out wrong ----------

  /** A new image of 838144 L1 entries, about 1637 GB in clusters of 4 KB. Saving the state of the machine behind the
      disk makes the L1 table grow, to 2456 clusters from 1640 on. They take all of region 1, and its refcount block
      comes to lie at cluster 4096, first of a region that gets its own block next. With one more entry the run takes
      that cluster itself and comes out right. */
  lemma WholeRegions(g: Geometry, sectors: Pos, size: nat)
    requires g.cs == 8 && 838144 <= size <= 838145 && |FreshL1(g, sectors)| == size
    ensures Creatable(g, sectors)
    ensures var st, at := NewStore(g, sectors), L1Clusters(g, size) + 3;
      var n := L1Clusters(g, GrownSize(size, size + 1));
      && n == 2456 && Ready(st) && Inside(st, n) && FirstFit(st, st.free, at, n)
      && (Safe(st, at, n) <==> size == 838145)
  {
    hide Inv, Settled, Ahead, Prefix, Count, Region, FirstFit, Inside, IsMeta, FreshL1, PutL1;
    GrowsTo(g, size);
    NewStoreIs(g, sectors);
    var st, at := NewStore(g, sectors), L1Clusters(g, size) + 3;
    FreshTop(g, sectors);
    FreshFit(st, at, 2456);
    InRegion(2048, 4096, 2);
    InRegion(2048, 4097, 2);
    InRegion(2048, 4098, 2);
  }

  lemma GrowsTo(g: Geometry, size: nat)
    requires g.cs == 8 && 838144 <= size <= 838145
    ensures L1Clusters(g, size) == size - 836507 && L1Clusters(g, GrownSize(size, size + 1)) == 2456
    ensures g.BlockSize() == 2048 && g.L2Size() == 512
  {
    assert GrownSize(size, size + 1) == (size * 3 + 1) / 2;
    DivUnique(size + 511, 512, size - 836507, size + 511 - 512 * (size - 836507));
    DivUnique((size * 3 + 1) / 2 + 511, 512, 2456, (size * 3 + 1) / 2 + 511 - 512 * 2456);
  }

  /** One region has a block. */
  lemma FreshTop(g: Geometry, sectors: Pos)
    ensures var st := NewStore(g, sectors); st.free == 0 && |st.table| == g.L2Size() && Top(st) == 1
  {
    var st := NewStore(g, sectors);
    assert Covered(st, 0) && !Covered(st, 1);
    assert TopFrom(st, 1) == 1;
  }
}

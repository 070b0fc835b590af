/** How many clusters an operation may allocate, and how long a run it may ask for. */
module Qcow2Cost {
  import opened Sums
  import opened Arith
  import opened Qcow2Format
  import opened Qcow2State
  import opened Qcow2Relink
  import opened Qcow2Steps
  import opened Qcow2Grow
  import opened Qcow2Guest
  import opened Qcow2Write
  import opened Qcow2Snap
  import opened Qcow2Pass
  import opened Qcow2Flat
  import opened SnapshotIds
  import opened RefcountRoom

  // ---------- Growing the L1 table ----------

  /** What growing an L1 table of `size` entries to at least `min` costs, if it is done in the smallest steps. */
  function L1Cost(g: Geometry, size: nat, min: nat): nat
    decreases min - size
  {
    if size == 0 || min <= size then 0
    else
      var next := (size * 3 + 1) / 2;
      L1Clusters(g, next) + 1 + L1Cost(g, next, min)
  }

  /** The run a table of `size` entries moves to if it has to grow to `min`. */
  function L1Run(g: Geometry, size: nat, min: nat): nat {
    if size == 0 || min <= size then 0 else L1Clusters(g, GrownSize(size, min))
  }

  lemma {:induction false} L1CostCovers(g: Geometry, size: nat, min: nat)
    requires 0 < size < min
    ensures L1Run(g, size, min) + 1 <= L1Cost(g, size, min)
    decreases min - size
  {
    hide L1Clusters;
    var next := (size * 3 + 1) / 2;
    if next < min {
      L1CostCovers(g, next, min);
    }
  }

  /** Growing in two steps costs the same. */
  lemma {:induction false} L1CostThen(g: Geometry, size: nat, a: nat, b: nat)
    requires size > 0 && a <= b
    ensures L1Cost(g, size, b) == L1Cost(g, size, a) + L1Cost(g, GrownSize(size, a), b)
    decreases a - size
  {
    hide L1Clusters;
    if a > size {
      L1CostThen(g, (size * 3 + 1) / 2, a, b);
    }
  }

  lemma {:induction false} GrownMono(size: nat, a: nat, b: nat)
    requires size > 0 && a <= b
    ensures GrownSize(size, a) <= GrownSize(size, b)
    decreases a - size
  {
    if a > size {
      GrownMono((size * 3 + 1) / 2, a, b);
    }
  }

  /** On the way to `last` the table takes no longer run than at the end. */
  lemma L1RunOnTheWay(g: Geometry, size: nat, a: nat, last: nat)
    requires size > 0 && a <= last
    ensures L1Run(g, size, a) <= L1Run(g, size, last) && L1Run(g, GrownSize(size, a), last) <= L1Run(g, size, last)
  {
    hide L1Clusters, GrownSize;
    GrownMono(size, a, last);
    L1ClustersMono(g, GrownSize(size, a), GrownSize(size, last));
    GrownTwice(size, a, last);
  }

  // ---------- Writing ----------

  /** Guest clusters a write of n sectors from k on comes to, one after the other. */
  function Chunks(g: Geometry, k: nat, n: nat): nat
    decreases n
  {
    if n == 0 then 0 else 1 + Chunks(g, k + Chunk(g, k, n), n - Chunk(g, k, n))
  }

  /** The entries of the L1 table that a write of n sectors from k on needs. */
  function Entries(g: Geometry, k: nat, n: nat): nat { if n == 0 then 0 else L1Index(g, k + n - 1) + 1 }

  /** For each guest cluster an L2 table and a data cluster, each with perhaps a refcount block. */
  function WriteCost(g: Geometry, size: nat, k: nat, n: nat): nat {
    4 * Chunks(g, k, n) + L1Cost(g, size, Entries(g, k, n))
  }

  /** Those among them that have no data cluster of their own. */
  function Shared(g: Geometry, s: Img, k: nat, n: nat): (r: nat)
    ensures r <= Chunks(g, k, n)
    decreases n
  {
    if n == 0 then 0
    else B(!EntryOf(g, s.d, s.l1, k).copied) + Shared(g, s, k + Chunk(g, k, n), n - Chunk(g, k, n))
  }

  /** What a write allocates at most: nothing where the guest cluster has its own data cluster already. */
  function WriteNeed(g: Geometry, s: Img, k: nat, n: nat): nat {
    4 * Shared(g, s, k, n) + L1Cost(g, |s.l1|, Entries(g, k, n))
  }

  /** Private guest clusters stay private, so they need no more later. */
  lemma {:induction false} SharedLess(g: Geometry, s: Img, s': Img, k: nat, n: nat)
    requires PrivateKept(g, s, s')
    ensures Shared(g, s', k, n) <= Shared(g, s, k, n)
    decreases n
  {
    hide EntryOf;
    if n > 0 {
      SharedLess(g, s, s', k + Chunk(g, k, n), n - Chunk(g, k, n));
    }
  }

  /** A private data cluster is reached through a private L2 table. */
  lemma PrivatePath(g: Geometry, s: Img, k: nat)
    requires Consistent(g, s) && EntryOf(g, s.d, s.l1, k).copied
    ensures L1Index(g, k) < |s.l1| && s.l1[L1Index(g, k)].copied
  {
    hide PathRefs, L1Index, L2Index;
    var i, j := L1Index(g, k), L2Index(g, k);
    var roots, t, e := Roots(s), s.l1[i].cluster, EntryOf(g, s.d, s.l1, k);
    FlaggedLeaf(g, s, i, j);
    assert roots[0] == s.l1 && RootOK(g, s.d, s.cnt, roots[0]) && RootInj(s.d, roots[0]);
    assert FlagExact(s.cnt, s.l1[i]) && TableExact(s.cnt, TableAt(s.d, t)) && FlagExact(s.cnt, e);
    PathLeaf(s.d, s.l1, i, j);
    forall r | 0 < r < |roots| ensures PathRefs(s.d, roots[r], t) == 0 {
      PrivateCluster(g, s, roots, e.cluster, r);
      if PathRefs(s.d, roots[r], t) > 0 {
        assert RootOK(g, s.d, s.cnt, roots[r]);
        TableReached(g, s, roots[r], t, j);
      }
    }
    OneRoot(s.d, roots, t);
    ReachedIsCounted(g, s, roots, 0, t);
    ReachedNotOwn(g, s, t);
    assert CountOf(s.cnt, t) == OwnRefs(g, s, t) + RootsRefs(s.d, roots, t);
  }

  /** A root that reaches an L2 table reaches what that table points to. */
  lemma TableReached(g: Geometry, s: Img, l1: seq<Entry>, t: nat, j: nat)
    requires RootShape(g, s.d, l1) && PathRefs(s.d, l1, t) > 0 && t in s.d && s.d[t].Table?
    requires j < |TableAt(s.d, t)| && TableAt(s.d, t)[j].cluster != 0
    ensures PathRefs(s.d, l1, TableAt(s.d, t)[j].cluster) > 0
  {
    hide PathRefs;
    var i, _ := PathWitness(g, s.d, l1, t);
    PathLeaf(s.d, l1, i, j);
  }

  lemma OneRoot(d: Disk, roots: seq<seq<Entry>>, c: nat)
    requires |roots| > 0 && forall r :: 0 < r < |roots| ==> PathRefs(d, roots[r], c) == 0
    ensures RootsRefs(d, roots, c) == PathRefs(d, roots[0], c)
  {
    hide PathRefs;
    var w := RootWeights(d, roots, c);
    SumUpdate(w, 0, 0);
    if Sum(w[0 := 0]) > 0 {
      var r := SumWitness(w[0 := 0]);
    }
  }

  lemma EntriesThen(g: Geometry, k: nat, n: nat)
    requires n > 0
    ensures var m := Chunk(g, k, n);
      && Entries(g, k, m) == L1Index(g, k) + 1 <= Entries(g, k, n)
      && (m < n ==> Entries(g, k + m, n - m) == Entries(g, k, n))
  {
    var m := Chunk(g, k, n);
    SameGuestCluster(g, k, m - 1);
    DivMono(k, k + n - 1, g.cs * g.L2Size());
  }

  /** What a write needs is what its first guest cluster needs and what the rest then needs. */
  lemma WriteNeedThen(g: Geometry, s: Img, k: nat, n: nat)
    requires n > 0 && |s.l1| > 0
    ensures var m := Chunk(g, k, n); var i := L1Index(g, k) + 1; var size := GrownSize(|s.l1|, i);
      && WriteNeed(g, s, k, n)
        >= 4 * B(!EntryOf(g, s.d, s.l1, k).copied) + L1Cost(g, |s.l1|, i)
          + 4 * Shared(g, s, k + m, n - m) + L1Cost(g, size, Entries(g, k + m, n - m))
      && L1Run(g, |s.l1|, i) <= L1Run(g, |s.l1|, Entries(g, k, n))
      && L1Run(g, size, Entries(g, k + m, n - m)) <= L1Run(g, |s.l1|, Entries(g, k, n))
  {
    hide L1Clusters, GrownSize, L1Cost, L1Index, L1Run, Entries, EntryOf;
    var m, i := Chunk(g, k, n), L1Index(g, k) + 1;
    EntriesThen(g, k, n);
    L1CostThen(g, |s.l1|, i, Entries(g, k, n));
    L1RunOnTheWay(g, |s.l1|, i, Entries(g, k, n));
    if m == n {
      NothingLeft(g, GrownSize(|s.l1|, i), k + m);
    }
  }

  /** The same once the first guest cluster has been written. */
  lemma NeedRest(g: Geometry, s: Img, s': Img, k: nat, n: nat)
    requires n > 0 && Stretched(g, s, s', k) && PrivateKept(g, s, s')
    ensures var m := Chunk(g, k, n);
      && WriteNeed(g, s, k, n)
        >= (if EntryOf(g, s.d, s.l1, k).copied then 0 else ReachCost(g, |s.l1|, k)) + WriteNeed(g, s', k + m, n - m)
      && L1Run(g, |s'.l1|, Entries(g, k + m, n - m)) <= L1Run(g, |s.l1|, Entries(g, k, n))
  {
    hide L1Clusters, GrownSize, L1Cost, L1Index, L1Run, Entries, EntryOf, PrivateKept, Shared;
    WriteNeedThen(g, s, k, n);
    SharedLess(g, s, s', k + Chunk(g, k, n), n - Chunk(g, k, n));
  }

  lemma NothingLeft(g: Geometry, size: nat, k: nat)
    ensures L1Cost(g, size, Entries(g, k, 0)) == 0 && L1Run(g, size, Entries(g, k, 0)) == 0
  {
  }

  // ---------- The snapshot table ----------

  function FrozenBytes(frozen: seq<Frozen>): nat {
    if frozen == [] then 0
    else
      var last := frozen[|frozen| - 1];
      Align8(FrozenBytes(frozen[..|frozen| - 1])) + 40 + |last.id| + |last.name|
  }

  function FrozenClusters(g: Geometry, frozen: seq<Frozen>): nat { ByteClusters(g, FrozenBytes(frozen)) }

  predicate SameLabels(frozen: seq<Frozen>, snaps: seq<Snapshot>) {
    |frozen| == |snaps| && forall i :: 0 <= i < |snaps| ==>
      frozen[i].id == snaps[i].id && frozen[i].name == snaps[i].name
  }

  lemma {:induction false} SameBytes(frozen: seq<Frozen>, snaps: seq<Snapshot>)
    requires SameLabels(frozen, snaps)
    ensures FrozenBytes(frozen) == SnapBytes(snaps)
    decreases |snaps|
  {
    hide Align8;
    if snaps != [] {
      SameBytes(frozen[..|frozen| - 1], snaps[..|snaps| - 1]);
    }
  }

  // ---------- Operations ----------

  function Max(a: nat, b: nat): nat { if a < b then b else a }

  /** The clusters an operation may allocate. */
  ghost function OpCost(g: Geometry, f: Flat, op: Op): nat {
    match op
    case Write(k, buf) => WriteCost(g, f.size, k, |buf|)
    case Read(_, _) => 0
    case Create(id, _) =>
      if ActualId(FrozenIds(f.frozen), id) in FrozenIds(f.frozen) then 0
      else L1Clusters(g, f.size) + 1 + FrozenClusters(g, Next(g, f, op).frozen) + 1
    case Goto(name) => if Index(f, name) < 0 then 0 else L1Cost(g, f.size, f.frozen[Index(f, name)].size)
    case Delete(name) => if Index(f, name) < 0 then 0 else FrozenClusters(g, Next(g, f, op).frozen) + 1
  }

  /** The longest run it may ask for. */
  ghost function OpRun(g: Geometry, f: Flat, op: Op): nat {
    match op
    case Write(k, buf) => Max(1, L1Run(g, f.size, Entries(g, k, |buf|)))
    case Read(_, _) => 0
    case Create(id, _) =>
      if ActualId(FrozenIds(f.frozen), id) in FrozenIds(f.frozen) then 0
      else Max(L1Clusters(g, f.size), FrozenClusters(g, Next(g, f, op).frozen))
    case Goto(name) => if Index(f, name) < 0 then 0 else L1Run(g, f.size, f.frozen[Index(f, name)].size)
    case Delete(name) => if Index(f, name) < 0 then 0 else FrozenClusters(g, Next(g, f, op).frozen)
  }

  ghost function RunCost(g: Geometry, f: Flat, ops: seq<Op>): nat {
    if ops == [] then 0 else RunCost(g, f, ops[..|ops| - 1]) + OpCost(g, Final(g, f, ops[..|ops| - 1]), ops[|ops| - 1])
  }

  ghost predicate RunAmple(g: Geometry, limit: nat, f: Flat, ops: seq<Op>) {
    ops != [] ==>
      var front, last := ops[..|ops| - 1], ops[|ops| - 1];
      RunAmple(g, limit, f, front) && Ample(g.L2Size(), g.BlockSize(), limit, OpRun(g, Final(g, f, front), last))
  }

  /** What comes first in a run costs no more than the run, and is as ample. */
  lemma {:induction false} RunPrefix(g: Geometry, limit: nat, f: Flat, ops: seq<Op>, n: nat)
    requires n <= |ops| && RunAmple(g, limit, f, ops)
    ensures RunCost(g, f, ops[..n]) <= RunCost(g, f, ops) && RunAmple(g, limit, f, ops[..n])
    decreases |ops|
  {
    hide OpCost, OpRun, Ample, Final;
    if n < |ops| {
      var front := ops[..|ops| - 1];
      RunPrefix(g, limit, f, front, n);
      assert front[..n] == ops[..n];
    } else {
      assert ops[..n] == ops;
    }
  }

  /** The next operation of a run. */
  lemma RunAt(g: Geometry, limit: nat, f: Flat, ops: seq<Op>, n: nat)
    requires n < |ops| && RunAmple(g, limit, f, ops)
    ensures var f1 := Final(g, f, ops[..n]);
      && RunCost(g, f, ops[..n + 1]) == RunCost(g, f, ops[..n]) + OpCost(g, f1, ops[n]) <= RunCost(g, f, ops)
      && Ample(g.L2Size(), g.BlockSize(), limit, OpRun(g, f1, ops[n]))
  {
    hide OpCost, OpRun, Ample, Final;
    RunPrefix(g, limit, f, ops, n + 1);
    assert ops[..n + 1][..n] == ops[..n];
  }

  // ---------- The same for an image ----------

  /** An L2 table and a data cluster behind an L1 table that may have to grow. */
  function ReachCost(g: Geometry, size: nat, k: nat): nat { L1Cost(g, size, L1Index(g, k) + 1) + 4 }

  /** A copy of the active L1 table and a longer snapshot table. */
  function CaptureCost(g: Geometry, s: Img, id: string, name: string): nat {
    L1Clusters(g, |s.l1|) + SnapClusters(g, s.snaps + [Snapshot(0, 0, id, name)]) + 2
  }

  /** The clusters an operation allocates at most, as the image is. */
  function Need(g: Geometry, s: Img, op: Op): nat {
    match op
    case Write(k, buf) => WriteNeed(g, s, k, |buf|)
    case Read(_, _) => 0
    case Create(id, name) =>
      var id1 := ActualId(Ids(s.snaps), id);
      if id1 in Ids(s.snaps) then 0 else CaptureCost(g, s, id1, name)
    case Goto(name) =>
      var i := FindIn(Ids(s.snaps), Names(s.snaps), name);
      if i < 0 then 0 else L1Cost(g, |s.l1|, s.snaps[i].l1Size)
    case Delete(name) =>
      var i := FindIn(Ids(s.snaps), Names(s.snaps), name);
      if i < 0 then 0 else SnapClusters(g, Without(s.snaps, i)) + 1
  }

  /** The longest run of clusters it asks for. */
  function Longest(g: Geometry, s: Img, op: Op): nat {
    match op
    case Write(k, buf) => Max(1, L1Run(g, |s.l1|, Entries(g, k, |buf|)))
    case Read(_, _) => 0
    case Create(id, name) =>
      var id1 := ActualId(Ids(s.snaps), id);
      Max(L1Clusters(g, |s.l1|), SnapClusters(g, s.snaps + [Snapshot(0, 0, id1, name)]))
    case Goto(name) =>
      var i := FindIn(Ids(s.snaps), Names(s.snaps), name);
      if i < 0 then 0 else L1Run(g, |s.l1|, s.snaps[i].l1Size)
    case Delete(name) =>
      var i := FindIn(Ids(s.snaps), Names(s.snaps), name);
      if i < 0 then 0 else SnapClusters(g, Without(s.snaps, i))
  }

  /** An operation that makes a snapshot finds fewer than the counts allow. */
  predicate CountsSuffice(s: Img, op: Op) {
    op.Create? && ActualId(Ids(s.snaps), op.id) !in Ids(s.snaps) ==> |s.snaps| + 1 < MAX_COUNT
  }

  /** The flat bounds hold for the image. */
  lemma NeedBound(g: Geometry, s: Img, op: Op)
    ensures Need(g, s, op) <= OpCost(g, View(g, s), op)
    ensures Need(g, s, op) > 0 ==> Longest(g, s, op) <= OpRun(g, View(g, s), op)
  {
    hide View, L1Cost, L1Run, L1Clusters, SnapClusters, Entries;
    match op
    case Write(k, buf) => ViewSize(g, s);
    case Read(_, _) =>
    case Create(id, name) => CreateAfford(g, s, id, name);
    case Goto(name) => GotoAfford(g, s, name);
    case Delete(name) => DeleteAfford(g, s, name);
  }

  lemma ViewSize(g: Geometry, s: Img)
    ensures View(g, s).size == |s.l1| && |View(g, s).frozen| == |s.snaps|
  {
  }

  lemma LabelClusters(g: Geometry, snaps: seq<Snapshot>, snaps': seq<Snapshot>, id: string, name: string)
    requires |snaps'| == |snaps| + 1 && snaps'[..|snaps|] == snaps && snaps'[|snaps|].id == id
    requires snaps'[|snaps|].name == name
    ensures SnapClusters(g, snaps') == SnapClusters(g, snaps + [Snapshot(0, 0, id, name)])
  {
    var labels := snaps + [Snapshot(0, 0, id, name)];
    assert labels[..|snaps|] == snaps;
  }

  lemma CreateAfford(g: Geometry, s: Img, id: string, name: string)
    ensures var id1 := ActualId(Ids(s.snaps), id); var op := Create(id, name);
      && FrozenIds(View(g, s).frozen) == Ids(s.snaps)
      && (id1 in Ids(s.snaps) ==> OpCost(g, View(g, s), op) == 0)
      && (id1 !in Ids(s.snaps) ==>
            && OpCost(g, View(g, s), op) == CaptureCost(g, s, id1, name)
            && OpRun(g, View(g, s), op)
              == Max(L1Clusters(g, |s.l1|), SnapClusters(g, s.snaps + [Snapshot(0, 0, id1, name)])))
  {
    hide NewId, FrozenBytes, SnapBytes, L1Clusters, ByteClusters;
    ViewLabels(g, s);
    var id1 := ActualId(Ids(s.snaps), id);
    if id1 !in Ids(s.snaps) {
      SameBytes(Next(g, View(g, s), Create(id, name)).frozen, s.snaps + [Snapshot(0, 0, id1, name)]);
    }
  }

  lemma GotoAfford(g: Geometry, s: Img, name: string)
    ensures var i := FindIn(Ids(s.snaps), Names(s.snaps), name); var op := Goto(name);
      && Index(View(g, s), name) == i
      && (i < 0 ==> OpCost(g, View(g, s), op) == 0)
      && (i >= 0 ==>
            && OpCost(g, View(g, s), op) == L1Cost(g, |s.l1|, s.snaps[i].l1Size)
            && OpRun(g, View(g, s), op) == L1Run(g, |s.l1|, s.snaps[i].l1Size))
  {
    hide L1Cost, L1Run;
    ViewLabels(g, s);
  }

  lemma DeleteAfford(g: Geometry, s: Img, name: string)
    ensures var i := FindIn(Ids(s.snaps), Names(s.snaps), name); var op := Delete(name);
      && Index(View(g, s), name) == i
      && (i < 0 ==> OpCost(g, View(g, s), op) == 0)
      && (i >= 0 ==>
            && OpCost(g, View(g, s), op) == SnapClusters(g, Without(s.snaps, i)) + 1
            && OpRun(g, View(g, s), op) == SnapClusters(g, Without(s.snaps, i)))
  {
    hide FrozenBytes, SnapBytes, ByteClusters, L1Clusters, Align8, View, Without, SameLabels, FindIn;
    ViewLabels(g, s);
    var i := FindIn(Ids(s.snaps), Names(s.snaps), name);
    if i >= 0 {
      LabelsWithout(g, s, i);
      SameBytes(Without(View(g, s).frozen, i), Without(s.snaps, i));
    }
  }

  lemma LabelsWithout(g: Geometry, s: Img, i: nat)
    requires i < |s.snaps|
    ensures i < |View(g, s).frozen| && SameLabels(Without(View(g, s).frozen, i), Without(s.snaps, i))
  {
    hide DiskOf;
  }

  lemma WriteLossless(g: Geometry, s: Img, s': Img, k: nat, buf: seq<Sector>)
    requires StretchedSoFar(g, s, s', k, |buf|) && View(g, s') == Next(g, View(g, s), Write(k, buf))
    ensures Refines(g, s, s', Write(k, buf), Code(0))
  {
    hide View, Next;
  }

  lemma SoundLength(g: Geometry, s: Img, roots: seq<seq<Entry>>)
    requires Sound(g, s, roots)
    ensures |s.l1| > 0
  {
  }

  lemma ActiveLength(g: Geometry, s: Img)
    requires Consistent(g, s)
    ensures |s.l1| > 0
  {
  }

  lemma ConsistentSound(g: Geometry, s: Img)
    requires Consistent(g, s)
    ensures Sound(g, s, Roots(s)) && Roots(s)[0] == s.l1 && |Roots(s)| == |s.snaps| + 1
  {
  }

  lemma PassedSizes(s: Img, s': Img, at: nat, l1: seq<Entry>, addend: int)
    requires Passed(s, s', at, l1, addend) && (at == s.l1At ==> |l1| == |s.l1|)
    ensures s'.snaps == s.snaps && s'.snapLen == s.snapLen && |s'.l1| == |s.l1| && s'.meta == s.meta
    ensures s'.l1At == s.l1At && s'.leaked == s.leaked
  {
  }

  lemma SwappedFields(s: Img, s1: Img, s2: Img, from: nat, at: nat)
    requires Swapped(s, s1, s2, from, at)
    ensures s2 == s.(d := s2.d, cnt := s2.cnt, meta := s2.meta)
  {
  }

  lemma SameRefl(g: Geometry, s: Img)
    ensures SameActiveDisk(g, s, s) && SameSnapDisks(g, s, s)
  {
  }

  lemma SameBounded(s: Img, s': Img)
    requires Bounded(s) && s'.cnt == s.cnt
    ensures Bounded(s')
  {
  }

  lemma SnapElsewhere(g: Geometry, s: Img, i: nat)
    requires Consistent(g, s) && i < |s.snaps|
    ensures s.snaps[i].l1 != s.l1At
  {
  }

  lemma SnapCounted(g: Geometry, s: Img, roots: seq<seq<Entry>>, i: nat)
    requires Sound(g, s, roots) && i < |s.snaps|
    ensures OwnShape(g, s)
    ensures forall c: nat ::
      InRun(s.snaps[i].l1, L1Clusters(g, s.snaps[i].l1Size), c) ==> CountOf(s.cnt, c) > 0 && c !in s.meta && c != 0
  {
    hide L1Clusters, PathRefs;
    SnapOwned(g, s, i);
    forall c: nat | InRun(s.snaps[i].l1, L1Clusters(g, s.snaps[i].l1Size), c) ensures CountOf(s.cnt, c) > 0 {
      assert CountOf(s.cnt, c) == OwnRefs(g, s, c) + RootsRefs(s.d, roots, c);
    }
  }
}

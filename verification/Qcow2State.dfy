/**
 The state of an open qcow2 image as a value, the guest disk it presents, and the invariant
 that check_refcounts checks.
 */
module Qcow2State {
  import opened Sums
  import opened Qcow2Format

  /** meta holds the clusters of the refcount table and blocks; leaked counts clusters whose
      count was never given back. */
  datatype Img = Img(
    d: Disk, cnt: map<nat, nat>, meta: set<nat>,
    l1At: nat, l1: seq<Entry>,
    snaps: seq<Snapshot>, snapAt: nat, snapLen: nat,
    leaked: multiset<nat>)

  // ---------- The guest disk ----------

  /** The backing disk reads as zeros past its end. */
  function Backing(g: Geometry, k: nat): Sector {
    if k < |g.backing| then g.backing[k] else ZeroSector()
  }

  function L1Index(g: Geometry, k: nat): nat { k / (g.cs * g.L2Size()) }
  function L2Index(g: Geometry, k: nat): nat { (k / g.cs) % g.L2Size() }

  /** The L2 entry that maps guest sector k (NIL when there is none). */
  function EntryOf(g: Geometry, d: Disk, l1: seq<Entry>, k: nat): Entry {
    var i, j := L1Index(g, k), L2Index(g, k);
    if i < |l1| && l1[i].cluster != 0 && j < |TableAt(d, l1[i].cluster)|
    then TableAt(d, l1[i].cluster)[j]
    else NIL
  }

  function SectorAt(d: Disk, c: nat, n: nat): Sector {
    if c in d && d[c].Data? && n < |d[c].sectors| then d[c].sectors[n] else ZeroSector()
  }

  /** What guest sector k reads as through the given L1 table. */
  function Look(g: Geometry, d: Disk, l1: seq<Entry>, k: nat): Sector {
    var e := EntryOf(g, d, l1, k);
    if e.cluster == 0 then Backing(g, k) else g.dec(k, SectorAt(d, e.cluster, k % g.cs))
  }

  // ---------- Shape ----------

  predicate LeafShape(g: Geometry, d: Disk, e: Entry) {
    if e.cluster == 0 then !e.copied
    else e.cluster in d && d[e.cluster].Data? && |d[e.cluster].sectors| == g.cs
  }

  predicate TableShape(g: Geometry, d: Disk, t: seq<Entry>) {
    |t| == g.L2Size() && forall j :: 0 <= j < |t| ==> LeafShape(g, d, t[j])
  }

  predicate EntryShape(g: Geometry, d: Disk, e: Entry) {
    if e.cluster == 0 then !e.copied
    else e.cluster in d && d[e.cluster].Table? && TableShape(g, d, d[e.cluster].entries)
  }

  predicate RootShape(g: Geometry, d: Disk, l1: seq<Entry>) {
    forall i :: 0 <= i < |l1| ==> EntryShape(g, d, l1[i])
  }

  /** One L1 table reaches each cluster along at most one path. */
  ghost predicate RootInj(d: Disk, l1: seq<Entry>) {
    forall c: nat :: PathRefs(d, l1, c) <= 1
  }

  // ---------- The copied flag ----------

  /** The copied flag is set only on clusters with count 1. */
  predicate FlagSafe(cnt: map<nat, nat>, e: Entry) {
    e.copied ==> CountOf(cnt, e.cluster) == 1
  }

  /** The copied flag is set exactly on clusters with count 1. */
  predicate FlagExact(cnt: map<nat, nat>, e: Entry) {
    e.cluster != 0 ==> (e.copied <==> CountOf(cnt, e.cluster) == 1)
  }

  predicate TableSafe(cnt: map<nat, nat>, t: seq<Entry>) {
    forall j :: 0 <= j < |t| ==> FlagSafe(cnt, t[j])
  }

  predicate TableExact(cnt: map<nat, nat>, t: seq<Entry>) {
    forall j :: 0 <= j < |t| ==> FlagExact(cnt, t[j])
  }

  predicate RootSafe(d: Disk, cnt: map<nat, nat>, l1: seq<Entry>) {
    forall i :: 0 <= i < |l1| ==>
      FlagSafe(cnt, l1[i]) && (l1[i].cluster != 0 ==> TableSafe(cnt, TableAt(d, l1[i].cluster)))
  }

  predicate RootExact(d: Disk, cnt: map<nat, nat>, l1: seq<Entry>) {
    forall i :: 0 <= i < |l1| ==>
      FlagExact(cnt, l1[i]) && (l1[i].cluster != 0 ==> TableExact(cnt, TableAt(d, l1[i].cluster)))
  }

  // ---------- Clusters held otherwise than through an L1 table ----------

  function SnapRunWeights(g: Geometry, snaps: seq<Snapshot>, c: nat): seq<nat> {
    seq(|snaps|, i requires 0 <= i < |snaps| => B(InRun(snaps[i].l1, L1Clusters(g, snaps[i].l1Size), c)))
  }

  function SnapRunRefs(g: Geometry, snaps: seq<Snapshot>, c: nat): nat { Sum(SnapRunWeights(g, snaps, c)) }

  function OwnRefs(g: Geometry, s: Img, c: nat): nat {
    B(c == 0) + B(InRun(s.l1At, L1Clusters(g, |s.l1|), c)) + SnapRunRefs(g, s.snaps, c)
    + B(InRun(s.snapAt, s.snapLen, c)) + B(c in s.meta) + s.leaked[c]
  }

  predicate StoredRun(g: Geometry, d: Disk, at: nat, n: nat) {
    && n > 0 && at in d && d[at].L1Head? && n <= |d[at].entries|
    && forall k :: at < k < at + L1Clusters(g, n) ==> k in d && d[k] == L1Tail(at)
  }

  predicate StoredL1(g: Geometry, d: Disk, at: nat, l1: seq<Entry>) {
    StoredRun(g, d, at, |l1|) && L1At(d, at, |l1|) == l1
  }

  predicate StoredSnaps(g: Geometry, d: Disk, snaps: seq<Snapshot>, l1At: nat) {
    && (forall i :: 0 <= i < |snaps| ==> snaps[i].l1 != l1At && StoredRun(g, d, snaps[i].l1, snaps[i].l1Size))
    && (forall i, j :: 0 <= i < j < |snaps| ==> snaps[i].l1 != snaps[j].l1)
  }

  predicate OwnShape(g: Geometry, s: Img) {
    match s
    case Img(d, _, meta, l1At, l1, snaps, snapAt, snapLen, leaked) =>
      && 0 in d && d[0].Header?
      && StoredL1(g, d, l1At, l1)
      && StoredSnaps(g, d, snaps, l1At)
      && (forall k :: snapAt <= k < snapAt + snapLen ==> k in d && (d[k].SnapHead? || d[k].SnapTail?))
      && (forall c :: c in meta ==> c in d && d[c].Refcounting())
      && (forall c :: c in leaked ==> c in d && (d[c].L1Head? || d[c].L1Tail?))
  }

  // ---------- The invariant ----------

  predicate RootOK(g: Geometry, d: Disk, cnt: map<nat, nat>, l1: seq<Entry>) {
    RootShape(g, d, l1) && RootSafe(d, cnt, l1)
  }

  /** Every count is exactly the number of references found by walking the given L1 tables and
      everything the image holds besides. */
  ghost predicate Exact(g: Geometry, s: Img, roots: seq<seq<Entry>>) {
    forall c: nat :: CountOf(s.cnt, c) == OwnRefs(g, s, c) + RootsRefs(s.d, roots, c)
  }

  ghost predicate RootsOK(g: Geometry, s: Img, roots: seq<seq<Entry>>) {
    forall r :: 0 <= r < |roots| ==> RootOK(g, s.d, s.cnt, roots[r]) && RootInj(s.d, roots[r])
  }

  ghost predicate Sound(g: Geometry, s: Img, roots: seq<seq<Entry>>) {
    match s
    case Img(_, _, _, _, _, _, _, _, _) => OwnShape(g, s) && RootsOK(g, s, roots) && Exact(g, s, roots)
  }

  function SnapRoots(d: Disk, snaps: seq<Snapshot>): (r: seq<seq<Entry>>)
    ensures |r| == |snaps|
  {
    seq(|snaps|, i requires 0 <= i < |snaps| => L1At(d, snaps[i].l1, snaps[i].l1Size))
  }

  function Roots(s: Img): seq<seq<Entry>> { [s.l1] + SnapRoots(s.d, s.snaps) }

  /** No entry of the L1 table itself carries the copied flag. */
  predicate Plain(l1: seq<Entry>) { forall i :: 0 <= i < |l1| ==> !l1[i].copied }

  predicate SnapsPlain(d: Disk, snaps: seq<Snapshot>) {
    forall i :: 0 <= i < |snaps| ==> Plain(L1At(d, snaps[i].l1, snaps[i].l1Size))
  }

  /** check_refcounts finds nothing to report, the copied flags of the active tables are exact,
      and no flag of any snapshot is set on a shared cluster. */
  ghost predicate Consistent(g: Geometry, s: Img) {
    match s
    case Img(d, cnt, _, _, l1, snaps, _, _, _) => Sound(g, s, Roots(s)) && RootExact(d, cnt, l1) && SnapsPlain(d, snaps)
  }

  // ---------- Reachability ----------

  /** A counted cluster is an L2 table of the root or a data cluster of one of its tables. */
  lemma PathWitness(g: Geometry, d: Disk, l1: seq<Entry>, c: nat) returns (i: nat, j: nat)
    requires PathRefs(d, l1, c) > 0 && RootShape(g, d, l1)
    ensures i < |l1| && l1[i].cluster != 0 && c != 0 && c in d
    ensures l1[i].cluster in d && d[l1[i].cluster].Table?
    ensures (l1[i].cluster == c && d[c].Table?)
         || (j < |TableAt(d, l1[i].cluster)| && TableAt(d, l1[i].cluster)[j].cluster == c && d[c].Data?)
  {
    i := SumWitness(PathWeights(d, l1, c));
    j := 0;
    assert EntryShape(g, d, l1[i]);
    if l1[i].cluster != c {
      var t := TableAt(d, l1[i].cluster);
      j := SumWitness(Hits(t, c));
      assert LeafShape(g, d, t[j]);
    }
  }

  /** What a root reaches has a count and is no refcount metadata. */
  lemma ReachedIsCounted(g: Geometry, s: Img, roots: seq<seq<Entry>>, r: nat, c: nat)
    requires Sound(g, s, roots) && r < |roots| && PathRefs(s.d, roots[r], c) > 0
    ensures CountOf(s.cnt, c) > 0 && c !in s.meta && c != 0 && c in s.d && (s.d[c].Table? || s.d[c].Data?)
  {
    RootsMember(s.d, roots, r, c);
    var i, j := PathWitness(g, s.d, roots[r], c);
  }

  /** A root all of whose clusters keep their content keeps its shape, its paths and its guest disk. */
  lemma RootKept(g: Geometry, d: Disk, d': Disk, l1: seq<Entry>)
    requires RootShape(g, d, l1)
    requires forall c: nat :: PathRefs(d, l1, c) > 0 && c in d ==> c in d' && d'[c] == d[c]
    ensures RootShape(g, d', l1)
    ensures forall i :: 0 <= i < |l1| && l1[i].cluster != 0 ==> TableAt(d', l1[i].cluster) == TableAt(d, l1[i].cluster)
    ensures forall c: nat :: PathRefs(d', l1, c) == PathRefs(d, l1, c)
    ensures forall k: nat :: Look(g, d', l1, k) == Look(g, d, l1, k) && EntryOf(g, d', l1, k) == EntryOf(g, d, l1, k)
  {
    forall i | 0 <= i < |l1|
      ensures EntryShape(g, d', l1[i])
      ensures l1[i].cluster != 0 ==> TableAt(d', l1[i].cluster) == TableAt(d, l1[i].cluster)
    {
      assert EntryShape(g, d, l1[i]);
      if l1[i].cluster != 0 {
        PathLeaf(d, l1, i, 0);
        var t := TableAt(d, l1[i].cluster);
        forall j | 0 <= j < |t| ensures LeafShape(g, d', t[j]) {
          assert LeafShape(g, d, t[j]);
          PathLeaf(d, l1, i, j);
        }
      }
    }
    forall c: nat ensures PathRefs(d', l1, c) == PathRefs(d, l1, c) {
      PathSame(d', l1, d, l1, c);
    }
    forall k: nat ensures Look(g, d', l1, k) == Look(g, d, l1, k) && EntryOf(g, d', l1, k) == EntryOf(g, d, l1, k) {
      var i, j := L1Index(g, k), L2Index(g, k);
      if i < |l1| && l1[i].cluster != 0 {
        assert EntryShape(g, d, l1[i]);
        PathLeaf(d, l1, i, j);
        assert LeafShape(g, d, TableAt(d, l1[i].cluster)[j]);
      }
    }
  }
}

/**
 The qcow2 host file, cluster by cluster, and the guest disk one L1 table describes.

 Offsets are cluster numbers: every offset the image engine stores is a multiple of the
 cluster size, and 0 (the header's cluster) stands for "not allocated".
 */
module Qcow2Format {
  import opened Sums

  /** 512 guest bytes. */
  type Sector = seq<bv8>

  /** An L1 or L2 entry: a cluster number and QCOW_OFLAG_COPIED. */
  datatype Entry = Entry(cluster: nat, copied: bool)

  const NIL := Entry(0, false)

  datatype Snapshot = Snapshot(l1: nat, l1Size: nat, id: string, name: string)

  /** What one host cluster holds. A table of several clusters is kept whole at its first
      cluster; its other clusters are marked so that overwriting one of them shows. */
  datatype Content =
    | Header
    | L1Head(entries: seq<Entry>)
    | L1Tail(head: nat)
    | Table(entries: seq<Entry>)
    | Data(sectors: seq<Sector>)
    | SnapHead(list: seq<Snapshot>)
    | SnapTail(head: nat)
    | RefTable(blocks: seq<nat>)
    | RefTail(head: nat)
    | RefBlock(counts: seq<nat>)
  {
    predicate Refcounting() { RefTable? || RefTail? || RefBlock? }
  }

  type Disk = map<nat, Content>

  type Pos = n: nat | n > 0 witness 1

  /** What an open image never changes: the cluster size in sectors, the backing disk (empty when
      there is none) and the sector cipher (the identity pair when the image is not encrypted). */
  datatype Geometry = Geometry(cs: Pos, backing: seq<Sector>,
    enc: (nat, Sector) -> Sector, dec: (nat, Sector) -> Sector)
  {
    ghost predicate Valid() {
      forall k: nat, x: Sector :: dec(k, enc(k, x)) == x
    }
    /** Entries in one cluster: cluster_size / 8. */
    function L2Size(): Pos { 64 * cs }
    /** Refcounts in one cluster: cluster_size / 2. */
    function BlockSize(): Pos { 256 * cs }
  }

  function ZeroSector(): Sector { seq(512, i => 0 as bv8) }

  /** 512 zero bytes. */
  predicate Blank(x: Sector) { |x| == 512 && forall i :: 0 <= i < 512 ==> x[i] == 0 }

  /** Clusters an L1 table of n entries occupies. */
  function L1Clusters(g: Geometry, n: nat): nat {
    (n + g.L2Size() - 1) / g.L2Size()
  }

  function CountOf(cnt: map<nat, nat>, c: nat): nat {
    if c in cnt then cnt[c] else 0
  }

  function B(b: bool): nat { if b then 1 else 0 }

  predicate InRun(at: nat, n: nat, c: nat) { at <= c < at + n }

  function TableAt(d: Disk, c: nat): seq<Entry> {
    if c in d && d[c].Table? then d[c].entries else []
  }

  /** The first n entries of the L1 table stored at cluster c. */
  function L1At(d: Disk, c: nat, n: nat): seq<Entry> {
    if c in d && d[c].L1Head? && n <= |d[c].entries| then d[c].entries[..n] else []
  }

  // ---------- Counting references, as check_refcounts_l1 does ----------

  function Hit(e: Entry, c: nat): nat { B(c != 0 && e.cluster == c) }

  function Hits(t: seq<Entry>, c: nat): (r: seq<nat>) {
    seq(|t|, j requires 0 <= j < |t| => Hit(t[j], c))
  }

  /** References to cluster c from one L2 table. */
  function L2Refs(t: seq<Entry>, c: nat): nat { Sum(Hits(t, c)) }

  /** References to cluster c through one L1 entry: the L2 table itself and what it points to. */
  function EntryRefs(d: Disk, e: Entry, c: nat): nat {
    if e.cluster == 0 then 0 else Hit(e, c) + L2Refs(TableAt(d, e.cluster), c)
  }

  function PathWeights(d: Disk, l1: seq<Entry>, c: nat): seq<nat> {
    seq(|l1|, i requires 0 <= i < |l1| => EntryRefs(d, l1[i], c))
  }

  /** References to cluster c along all the paths of one L1 table. */
  function PathRefs(d: Disk, l1: seq<Entry>, c: nat): nat { Sum(PathWeights(d, l1, c)) }

  function RootWeights(d: Disk, roots: seq<seq<Entry>>, c: nat): seq<nat> {
    seq(|roots|, r requires 0 <= r < |roots| => PathRefs(d, roots[r], c))
  }

  /** References to cluster c along the paths of several L1 tables. */
  function RootsRefs(d: Disk, roots: seq<seq<Entry>>, c: nat): nat { Sum(RootWeights(d, roots, c)) }

  // ---------- Laws of counting ----------

  predicate SameClusters(t: seq<Entry>, t': seq<Entry>) {
    |t| == |t'| && forall j :: 0 <= j < |t| ==> t[j].cluster == t'[j].cluster
  }

  lemma L2RefsSame(t: seq<Entry>, t': seq<Entry>, c: nat)
    requires SameClusters(t, t')
    ensures L2Refs(t, c) == L2Refs(t', c)
  {
    assert Hits(t, c) == Hits(t', c);
  }

  lemma L2RefsUpdate(t: seq<Entry>, j: nat, e: Entry, c: nat)
    requires j < |t|
    ensures L2Refs(t[j := e], c) + Hit(t[j], c) == L2Refs(t, c) + Hit(e, c)
  {
    assert Hits(t[j := e], c) == Hits(t, c)[j := Hit(e, c)];
    SumUpdate(Hits(t, c), j, Hit(e, c));
  }

  lemma L2RefsMember(t: seq<Entry>, j: nat, c: nat)
    requires j < |t|
    ensures Hit(t[j], c) <= L2Refs(t, c)
  {
    SumMember(Hits(t, c), j);
  }

  lemma L2RefsPair(t: seq<Entry>, j: nat, k: nat, c: nat)
    requires j < |t| && k < |t| && j != k
    ensures Hit(t[j], c) + Hit(t[k], c) <= L2Refs(t, c)
  {
    SumPair(Hits(t, c), j, k);
  }

  lemma PathMember(d: Disk, l1: seq<Entry>, i: nat, c: nat)
    requires i < |l1|
    ensures EntryRefs(d, l1[i], c) <= PathRefs(d, l1, c)
  {
    SumMember(PathWeights(d, l1, c), i);
  }

  lemma PathPair(d: Disk, l1: seq<Entry>, i: nat, k: nat, c: nat)
    requires i < |l1| && k < |l1| && i != k
    ensures EntryRefs(d, l1[i], c) + EntryRefs(d, l1[k], c) <= PathRefs(d, l1, c)
  {
    SumPair(PathWeights(d, l1, c), i, k);
  }

  /** An L2 table on a path, and what it points to, are counted. */
  lemma PathLeaf(d: Disk, l1: seq<Entry>, i: nat, j: nat)
    requires i < |l1| && l1[i].cluster != 0
    ensures PathRefs(d, l1, l1[i].cluster) >= 1
    ensures j < |TableAt(d, l1[i].cluster)| && TableAt(d, l1[i].cluster)[j].cluster != 0
      ==> PathRefs(d, l1, TableAt(d, l1[i].cluster)[j].cluster) >= 1
  {
    PathMember(d, l1, i, l1[i].cluster);
    var t := TableAt(d, l1[i].cluster);
    if j < |t| {
      L2RefsMember(t, j, t[j].cluster);
      PathMember(d, l1, i, t[j].cluster);
    }
  }

  lemma PathL1Update(d: Disk, l1: seq<Entry>, i: nat, e: Entry, c: nat)
    requires i < |l1|
    ensures PathRefs(d, l1[i := e], c) + EntryRefs(d, l1[i], c) == PathRefs(d, l1, c) + EntryRefs(d, e, c)
  {
    assert PathWeights(d, l1[i := e], c) == PathWeights(d, l1, c)[i := EntryRefs(d, e, c)];
    SumUpdate(PathWeights(d, l1, c), i, EntryRefs(d, e, c));
  }

  lemma PathSame(d: Disk, l1: seq<Entry>, d': Disk, l1': seq<Entry>, c: nat)
    requires |l1| == |l1'|
    requires forall i :: 0 <= i < |l1| ==> EntryRefs(d, l1[i], c) == EntryRefs(d', l1'[i], c)
    ensures PathRefs(d, l1, c) == PathRefs(d', l1', c)
  {
    assert PathWeights(d, l1, c) == PathWeights(d', l1', c);
  }

  /** Appending empty entries to an L1 table adds no reference. */
  lemma {:induction false} PathExtend(d: Disk, l1: seq<Entry>, n: nat, c: nat)
    ensures PathRefs(d, l1 + seq(n, _ => NIL), c) == PathRefs(d, l1, c)
  {
    if n == 0 {
      assert l1 + seq(0, _ => NIL) == l1;
    } else {
      var m := l1 + seq(n - 1, _ => NIL);
      var w := PathWeights(d, l1 + seq(n, _ => NIL), c);
      assert w[..|w| - 1] == PathWeights(d, m, c);
      PathExtend(d, l1, n - 1, c);
    }
  }

  lemma RootsMember(d: Disk, roots: seq<seq<Entry>>, r: nat, c: nat)
    requires r < |roots|
    ensures PathRefs(d, roots[r], c) <= RootsRefs(d, roots, c)
  {
    SumMember(RootWeights(d, roots, c), r);
  }

  lemma RootsPair(d: Disk, roots: seq<seq<Entry>>, r: nat, q: nat, c: nat)
    requires r < |roots| && q < |roots| && r != q
    ensures PathRefs(d, roots[r], c) + PathRefs(d, roots[q], c) <= RootsRefs(d, roots, c)
  {
    SumPair(RootWeights(d, roots, c), r, q);
  }

  lemma RootsSame(d: Disk, roots: seq<seq<Entry>>, d': Disk, roots': seq<seq<Entry>>, c: nat)
    requires |roots| == |roots'|
    requires forall r :: 0 <= r < |roots| ==> PathRefs(d, roots[r], c) == PathRefs(d', roots'[r], c)
    ensures RootsRefs(d, roots, c) == RootsRefs(d', roots', c)
  {
    assert RootWeights(d, roots, c) == RootWeights(d', roots', c);
  }

  lemma RootsAppend(d: Disk, roots: seq<seq<Entry>>, more: seq<seq<Entry>>, c: nat)
    ensures RootsRefs(d, roots + more, c) == RootsRefs(d, roots, c) + RootsRefs(d, more, c)
  {
    assert RootWeights(d, roots + more, c) == RootWeights(d, roots, c) + RootWeights(d, more, c);
    SumAppend(RootWeights(d, roots, c), RootWeights(d, more, c));
  }

  lemma RootsOne(d: Disk, l1: seq<Entry>, c: nat)
    ensures RootsRefs(d, [l1], c) == PathRefs(d, l1, c)
  {
    assert RootWeights(d, [l1], c) == [PathRefs(d, l1, c)];
    SumOne(PathRefs(d, l1, c));
  }

  lemma RootsRemove(d: Disk, roots: seq<seq<Entry>>, r: nat, c: nat)
    requires r < |roots|
    ensures RootsRefs(d, roots[..r] + roots[r + 1..], c) + PathRefs(d, roots[r], c) == RootsRefs(d, roots, c)
  {
    var w := RootWeights(d, roots, c);
    assert RootWeights(d, roots[..r] + roots[r + 1..], c) == w[..r] + w[r + 1..];
    SumRemove(w, r);
  }
}

/**
 Changes that leave every path alone: writing inside a private data cluster, and moving, adding or
 dropping the clusters the image holds outside the paths (L1 tables, the snapshot table).
 */
module Qcow2Own {
  import opened Qcow2Format
  import opened Qcow2State
  import opened Qcow2Relink

  // ---------- Writing in place ----------

  /** Guest cluster (i, j), whose data cluster is private, gets new sectors. */
  predicate DataWritten(g: Geometry, s: Img, s': Img, i: nat, j: nat, sectors: seq<Sector>) {
    && i < |s.l1| && s.l1[i].cluster != 0 && j < |TableAt(s.d, s.l1[i].cluster)|
    && var e := TableAt(s.d, s.l1[i].cluster)[j];
    && e.cluster != 0 && e.copied && |sectors| == g.cs
    && e.cluster in s.d && s.d[e.cluster].Data?
    && s' == s.(d := s.d[e.cluster := Data(sectors)])
  }

  /** Replacing the sectors of one data cluster changes no path. */
  lemma DataKeepsRoot(g: Geometry, d: Disk, l1: seq<Entry>, c: nat, sectors: seq<Sector>)
    requires RootShape(g, d, l1) && c in d && d[c].Data? && |sectors| == g.cs
    ensures RootShape(g, d[c := Data(sectors)], l1)
    ensures forall x: nat :: TableAt(d[c := Data(sectors)], x) == TableAt(d, x)
    ensures forall x: nat :: PathRefs(d[c := Data(sectors)], l1, x) == PathRefs(d, l1, x)
    ensures PathRefs(d, l1, c) == 0 ==> PathsKept(g, d, d[c := Data(sectors)], l1)
  {
    var d' := d[c := Data(sectors)];
    forall i | 0 <= i < |l1| ensures EntryShape(g, d', l1[i]) {
      assert EntryShape(g, d, l1[i]);
      if l1[i].cluster != 0 {
        var t := TableAt(d, l1[i].cluster);
        forall j | 0 <= j < |t| ensures LeafShape(g, d', t[j]) {
          assert LeafShape(g, d, t[j]);
        }
      }
    }
    forall x: nat ensures PathRefs(d', l1, x) == PathRefs(d, l1, x) {
      PathSame(d', l1, d, l1, x);
    }
    if PathRefs(d, l1, c) == 0 {
      RootKept(g, d, d', l1);
    }
  }

  lemma DataOwn(g: Geometry, s: Img, roots: seq<seq<Entry>>, c: nat, sectors: seq<Sector>)
    requires Sound(g, s, roots) && c in s.d && s.d[c].Data?
    ensures OwnShape(g, s.(d := s.d[c := Data(sectors)]))
    ensures SnapRoots(s.d[c := Data(sectors)], s.snaps) == SnapRoots(s.d, s.snaps)
  {
    OwnKept(g, s, s.d[c := Data(sectors)], roots, {c});
  }

  lemma DataExact(g: Geometry, s: Img, s': Img, roots: seq<seq<Entry>>)
    requires Exact(g, s, roots) && s' == s.(d := s'.d)
    requires forall r, c: nat :: 0 <= r < |roots| ==> PathRefs(s'.d, roots[r], c) == PathRefs(s.d, roots[r], c)
    ensures Exact(g, s', roots)
  {
    forall c: nat ensures CountOf(s'.cnt, c) == OwnRefs(g, s', c) + RootsRefs(s'.d, roots, c) {
      RootsSame(s.d, roots, s'.d, roots, c);
      assert CountOf(s.cnt, c) == OwnRefs(g, s, c) + RootsRefs(s.d, roots, c);
    }
  }

  lemma DataSound(g: Geometry, s: Img, s': Img, roots: seq<seq<Entry>>, c: nat, sectors: seq<Sector>)
    requires Sound(g, s, roots) && c in s.d && s.d[c].Data? && |sectors| == g.cs
    requires s' == s.(d := s.d[c := Data(sectors)])
    ensures Sound(g, s', roots)
    ensures forall x: nat :: TableAt(s'.d, x) == TableAt(s.d, x)
    ensures SnapRoots(s'.d, s.snaps) == SnapRoots(s.d, s.snaps)
  {
    forall r | 0 <= r < |roots|
      ensures RootOK(g, s'.d, s'.cnt, roots[r]) && RootInj(s'.d, roots[r])
      ensures forall x: nat :: PathRefs(s'.d, roots[r], x) == PathRefs(s.d, roots[r], x)
    {
      assert RootOK(g, s.d, s.cnt, roots[r]) && RootInj(s.d, roots[r]);
      DataKeepsRoot(g, s.d, roots[r], c, sectors);
      forall x: nat ensures PathRefs(s'.d, roots[r], x) <= 1 {
        assert PathRefs(s.d, roots[r], x) <= 1;
      }
    }
    DataOwn(g, s, roots, c, sectors);
    DataExact(g, s, s', roots);
  }

  lemma DataLook(g: Geometry, s: Img, s': Img, i: nat, j: nat, sectors: seq<Sector>, k: nat)
    requires DataWritten(g, s, s', i, j, sectors) && RootShape(g, s.d, s.l1) && RootInj(s.d, s.l1)
    ensures EntryOf(g, s'.d, s'.l1, k) == EntryOf(g, s.d, s.l1, k)
    ensures Mapped(g, i, j, k) ==> EntryOf(g, s.d, s.l1, k) == TableAt(s.d, s.l1[i].cluster)[j]
    ensures Mapped(g, i, j, k) ==> Look(g, s'.d, s'.l1, k) == g.dec(k, sectors[k % g.cs])
    ensures !Mapped(g, i, j, k) ==> Look(g, s'.d, s'.l1, k) == Look(g, s.d, s.l1, k)
  {
    var h, m := L1Index(g, k), L2Index(g, k);
    if h < |s.l1| && s.l1[h].cluster != 0 {
      assert EntryShape(g, s.d, s.l1[h]) && EntryShape(g, s.d, s.l1[i]);
      LeafElsewhere(s.d, s.l1, i, j, h, m);
    }
  }

  /** An in-place write is seen through the active L1 table alone, in its own guest cluster alone. */
  lemma DataWriteKeeps(g: Geometry, s: Img, s': Img, roots: seq<seq<Entry>>, i: nat, j: nat, sectors: seq<Sector>)
    requires |roots| > 0 && roots[0] == s.l1 && Sound(g, s, roots)
    requires RootExact(s.d, s.cnt, s.l1) && DataWritten(g, s, s', i, j, sectors)
    ensures Sound(g, s', roots) && RootExact(s'.d, s'.cnt, s'.l1)
    ensures SnapRoots(s'.d, s'.snaps) == SnapRoots(s.d, s.snaps)
    ensures ClusterWritten(g, s, s', i, j, TableAt(s.d, s.l1[i].cluster)[j].cluster, sectors)
    ensures OthersSame(g, s, s', roots)
  {
    var e := TableAt(s.d, s.l1[i].cluster)[j];
    assert RootOK(g, s.d, s.cnt, roots[0]) && RootInj(s.d, roots[0]);
    DataSound(g, s, s', roots, e.cluster, sectors);
    forall k: nat
      ensures EntryOf(g, s'.d, s'.l1, k) == EntryOf(g, s.d, s.l1, k)
      ensures Mapped(g, i, j, k) ==> EntryOf(g, s.d, s.l1, k) == TableAt(s.d, s.l1[i].cluster)[j]
      ensures Mapped(g, i, j, k) ==> Look(g, s'.d, s'.l1, k) == g.dec(k, sectors[k % g.cs])
      ensures !Mapped(g, i, j, k) ==> Look(g, s'.d, s'.l1, k) == Look(g, s.d, s.l1, k)
    {
      DataLook(g, s, s', i, j, sectors, k);
    }
    DataOthers(g, s, s', roots, i, j, sectors);
  }

  lemma DataOthers(g: Geometry, s: Img, s': Img, roots: seq<seq<Entry>>, i: nat, j: nat, sectors: seq<Sector>)
    requires |roots| > 0 && roots[0] == s.l1 && Sound(g, s, roots)
    requires RootExact(s.d, s.cnt, s.l1) && DataWritten(g, s, s', i, j, sectors)
    ensures OthersSame(g, s, s', roots)
  {
    var e := TableAt(s.d, s.l1[i].cluster)[j];
    PathLeaf(s.d, s.l1, i, j);
    assert FlagExact(s.cnt, e);
    forall r | 0 < r < |roots| ensures PathsKept(g, s.d, s'.d, roots[r]) {
      PrivateCluster(g, s, roots, e.cluster, r);
      assert RootOK(g, s.d, s.cnt, roots[r]);
      DataKeepsRoot(g, s.d, roots[r], e.cluster, sectors);
    }
  }

  // ---------- Moving what the image holds outside the paths ----------

  /** Counts change by exactly what the image holds more or less outside the paths, and no count of a
      table or data cluster in use changes. */
  ghost predicate OwnMoved(g: Geometry, s: Img, s': Img) {
    match s'
    case Img(d', cnt', _, _, _, _, _, _, _) =>
      && OwnShape(g, s') && Kept(s, d', {s.l1At})
      && (forall c: nat :: CountOf(cnt', c) + OwnRefs(g, s, c) == CountOf(s.cnt, c) + OwnRefs(g, s', c))
      && (forall c: nat :: CountOf(s.cnt, c) > 0 && c in s.d && (s.d[c].Table? || s.d[c].Data?) ==>
        CountOf(cnt', c) == CountOf(s.cnt, c))
  }

  lemma OwnMovedFlags(g: Geometry, s: Img, s': Img, roots: seq<seq<Entry>>, r: nat, i: nat)
    requires Sound(g, s, roots) && OwnMoved(g, s, s') && r < |roots| && i < |roots[r]| && roots[r][i].cluster != 0
    ensures CountOf(s'.cnt, roots[r][i].cluster) == CountOf(s.cnt, roots[r][i].cluster)
    ensures var t := TableAt(s.d, roots[r][i].cluster);
      forall j :: 0 <= j < |t| && t[j].cluster != 0 ==> CountOf(s'.cnt, t[j].cluster) == CountOf(s.cnt, t[j].cluster)
  {
    var l1 := roots[r];
    var t := TableAt(s.d, l1[i].cluster);
    PathLeaf(s.d, l1, i, 0);
    ReachedIsCounted(g, s, roots, r, l1[i].cluster);
    forall j | 0 <= j < |t| && t[j].cluster != 0 ensures CountOf(s'.cnt, t[j].cluster) == CountOf(s.cnt, t[j].cluster) {
      PathLeaf(s.d, l1, i, j);
      ReachedIsCounted(g, s, roots, r, t[j].cluster);
    }
  }

  lemma OwnMovedPaths(g: Geometry, s: Img, s': Img, roots: seq<seq<Entry>>, r: nat)
    requires Sound(g, s, roots) && OwnMoved(g, s, s') && r < |roots|
    ensures RootShape(g, s'.d, roots[r]) && RootInj(s'.d, roots[r]) && PathsKept(g, s.d, s'.d, roots[r])
    ensures forall i :: 0 <= i < |roots[r]| && roots[r][i].cluster != 0 ==>
      TableAt(s'.d, roots[r][i].cluster) == TableAt(s.d, roots[r][i].cluster)
  {
    var l1 := roots[r];
    if PathRefs(s.d, l1, s.l1At) > 0 {
      ReachedIsCounted(g, s, roots, r, s.l1At);
    }
    ReachedKept(g, s, s'.d, roots, {s.l1At}, r);
    assert RootOK(g, s.d, s.cnt, l1) && RootInj(s.d, l1);
    RootKept(g, s.d, s'.d, l1);
    assert forall c: nat :: PathRefs(s.d, l1, c) <= 1;
  }

  lemma OwnMovedRoot(g: Geometry, s: Img, s': Img, roots: seq<seq<Entry>>, r: nat)
    requires Sound(g, s, roots) && OwnMoved(g, s, s') && r < |roots|
    ensures RootCarried(g, s, s', roots[r])
    ensures RootExact(s.d, s.cnt, roots[r]) ==> RootExact(s'.d, s'.cnt, roots[r])
  {
    hide PathRefs, OwnShape, Exact, PathsKept, RootShape, RootInj, TableSafe, TableExact;
    var l1 := roots[r];
    OwnMovedPaths(g, s, s', roots, r);
    assert RootOK(g, s.d, s.cnt, l1);
    forall i | 0 <= i < |l1| && l1[i].cluster != 0
      ensures CountOf(s'.cnt, l1[i].cluster) == CountOf(s.cnt, l1[i].cluster)
      ensures TableSafe(s'.cnt, TableAt(s'.d, l1[i].cluster))
      ensures TableExact(s.cnt, TableAt(s.d, l1[i].cluster)) ==> TableExact(s'.cnt, TableAt(s'.d, l1[i].cluster))
    {
      OwnMovedFlags(g, s, s', roots, r, i);
      OwnMovedTable(g, s, s', roots, r, i);
    }
    NilsUnflagged(g, s.d, l1);
  }

  lemma NilsUnflagged(g: Geometry, d: Disk, l1: seq<Entry>)
    requires RootShape(g, d, l1)
    ensures forall i :: 0 <= i < |l1| && l1[i].cluster == 0 ==> !l1[i].copied
  {
    forall i | 0 <= i < |l1| && l1[i].cluster == 0 ensures !l1[i].copied {
      assert EntryShape(g, d, l1[i]);
    }
  }

  lemma OwnMovedTable(g: Geometry, s: Img, s': Img, roots: seq<seq<Entry>>, r: nat, i: nat)
    requires Sound(g, s, roots) && OwnMoved(g, s, s') && r < |roots| && i < |roots[r]| && roots[r][i].cluster != 0
    ensures TableSafe(s'.cnt, TableAt(s.d, roots[r][i].cluster))
    ensures TableExact(s.cnt, TableAt(s.d, roots[r][i].cluster)) ==>
      TableExact(s'.cnt, TableAt(s.d, roots[r][i].cluster))
  {
    var t := TableAt(s.d, roots[r][i].cluster);
    OwnMovedFlags(g, s, s', roots, r, i);
    assert RootOK(g, s.d, s.cnt, roots[r]);
    assert EntryShape(g, s.d, roots[r][i]);
    forall j | 0 <= j < |t|
      ensures FlagSafe(s'.cnt, t[j]) && (FlagExact(s.cnt, t[j]) ==> FlagExact(s'.cnt, t[j]))
    {
      assert FlagSafe(s.cnt, t[j]) && LeafShape(g, s.d, t[j]);
    }
  }

  /** Every root is carried over. */
  lemma OwnMovedKeeps(g: Geometry, s: Img, s': Img, roots: seq<seq<Entry>>)
    requires Sound(g, s, roots) && OwnMoved(g, s, s')
    ensures Sound(g, s', roots)
    ensures forall r :: 0 <= r < |roots| ==> PathsKept(g, s.d, s'.d, roots[r])
    ensures forall r :: 0 <= r < |roots| && RootExact(s.d, s.cnt, roots[r]) ==> RootExact(s'.d, s'.cnt, roots[r])
  {
    forall r | 0 <= r < |roots|
      ensures RootCarried(g, s, s', roots[r])
      ensures RootExact(s.d, s.cnt, roots[r]) ==> RootExact(s'.d, s'.cnt, roots[r])
    {
      OwnMovedRoot(g, s, s', roots, r);
    }
    OwnMovedExact(g, s, s', roots);
  }

  lemma OwnMovedExact(g: Geometry, s: Img, s': Img, roots: seq<seq<Entry>>)
    requires Exact(g, s, roots)
    requires forall c: nat :: CountOf(s'.cnt, c) + OwnRefs(g, s, c) == CountOf(s.cnt, c) + OwnRefs(g, s', c)
    requires forall r :: 0 <= r < |roots| ==> PathsKept(g, s.d, s'.d, roots[r])
    ensures Exact(g, s', roots)
  {
    forall c: nat ensures CountOf(s'.cnt, c) == OwnRefs(g, s', c) + RootsRefs(s'.d, roots, c) {
      RootsSame(s.d, roots, s'.d, roots, c);
      assert CountOf(s.cnt, c) == OwnRefs(g, s, c) + RootsRefs(s.d, roots, c);
    }
  }
}

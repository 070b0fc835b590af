/**
 The steps of the image engine, from one consistent image to the next: what the allocator promises,
 and what relinking, writing in place and growing the L1 table do to the guest disks.
 */
module Qcow2Steps {
  import opened Qcow2Format
  import opened Qcow2State
  import opened Qcow2Relink
  import opened Qcow2Own

  // ---------- The allocator ----------

  /** What alloc_clusters promises: a run of unused clusters now has count 1. The refcount table and blocks
      may have moved or grown along the way, in clusters that were unused or theirs already. */
  ghost predicate Allocated(s: Img, s': Img, at: nat, n: nat) {
    match s'
    case Img(d', cnt', meta', _, _, _, _, _, _) =>
      && s' == s.(d := d', cnt := cnt', meta := meta')
      && (forall c: nat :: CountOf(cnt', c) + B(c in s.meta) == CountOf(s.cnt, c) + B(c in meta') + B(InRun(at, n, c)))
      && (forall c: nat :: InRun(at, n, c) ==> CountOf(s.cnt, c) == 0 && c !in s.meta && c !in meta')
      && Kept(s, d', {})
      && (forall c :: c in meta' ==> c in d' && d'[c].Refcounting())
      && (forall c: nat :: CountOf(cnt', c) <= CountOf(s.cnt, c) || CountOf(cnt', c) == 1)
  }

  /** What free_clusters promises: each cluster of the run loses one reference. */
  ghost predicate Freed(cnt: map<nat, nat>, cnt': map<nat, nat>, at: nat, n: nat) {
    forall c: nat :: CountOf(cnt', c) + B(InRun(at, n, c)) == CountOf(cnt, c)
  }

  // ---------- Guest disks ----------

  /** Guest sector k of snapshot i. */
  function SnapLook(g: Geometry, s: Img, i: nat, k: nat): Sector
    requires i < |s.snaps|
  {
    Look(g, s.d, L1At(s.d, s.snaps[i].l1, s.snaps[i].l1Size), k)
  }

  ghost predicate SameSnapDisks(g: Geometry, s: Img, s': Img) {
    s'.snaps == s.snaps && forall i, k: nat :: 0 <= i < |s.snaps| ==> SnapLook(g, s', i, k) == SnapLook(g, s, i, k)
  }

  ghost predicate SameActiveDisk(g: Geometry, s: Img, s': Img) {
    forall k: nat :: Look(g, s'.d, s'.l1, k)
      == Look(g, s.d, s.l1, k) && EntryOf(g, s'.d, s'.l1, k) == EntryOf(g, s.d, s.l1, k)
  }

  lemma SnapsFromRoots(g: Geometry, s: Img, s': Img)
    requires s'.snaps == s.snaps && SnapRoots(s'.d, s'.snaps) == SnapRoots(s.d, s.snaps)
    requires OthersSame(g, s, s', Roots(s)) && SnapsPlain(s.d, s.snaps)
    ensures SameSnapDisks(g, s, s') && SnapsPlain(s'.d, s'.snaps)
  {
    forall i | 0 <= i < |s.snaps|
      ensures L1At(s'.d, s.snaps[i].l1, s.snaps[i].l1Size) == L1At(s.d, s.snaps[i].l1, s.snaps[i].l1Size)
      ensures forall k: nat :: SnapLook(g, s', i, k) == SnapLook(g, s, i, k)
    {
      assert SnapRoots(s'.d, s'.snaps)[i] == SnapRoots(s.d, s.snaps)[i];
      assert Roots(s)[i + 1] == L1At(s.d, s.snaps[i].l1, s.snaps[i].l1Size);
      assert PathsKept(g, s.d, s'.d, Roots(s)[i + 1]);
    }
  }

  /** A new active root beside unchanged snapshot roots makes a consistent image. */
  lemma Assemble(g: Geometry, s: Img, s': Img)
    requires Sound(g, s', Roots(s)[0 := s'.l1]) && RootExact(s'.d, s'.cnt, s'.l1)
    requires s'.snaps == s.snaps && SnapRoots(s'.d, s'.snaps) == SnapRoots(s.d, s.snaps)
    requires OthersSame(g, s, s', Roots(s)) && SnapsPlain(s.d, s.snaps)
    ensures Consistent(g, s') && SameSnapDisks(g, s, s')
  {
    assert Roots(s)[0 := s'.l1] == Roots(s');
    SnapsFromRoots(g, s, s');
  }

  lemma L2Step(g: Geometry, s: Img, s': Img, i: nat, to: nat)
    requires Consistent(g, s) && L2Relinked(g, s, s', i, to)
    ensures Consistent(g, s') && SameActiveDisk(g, s, s') && SameSnapDisks(g, s, s')
  {
    L2RelinkKeeps(g, s, s', Roots(s), i, to);
    Assemble(g, s, s');
  }

  lemma LeafStep(g: Geometry, s: Img, s': Img, i: nat, j: nat, to: nat, sectors: seq<Sector>)
    requires Consistent(g, s) && LeafRelinked(g, s, s', i, j, to, sectors)
    ensures Consistent(g, s') && ClusterWritten(g, s, s', i, j, to, sectors) && SameSnapDisks(g, s, s')
  {
    LeafRelinkKeeps(g, s, s', Roots(s), i, j, to, sectors);
    UpdateSame(Roots(s));
    Assemble(g, s, s');
  }

  lemma DataStep(g: Geometry, s: Img, s': Img, i: nat, j: nat, sectors: seq<Sector>)
    requires Consistent(g, s) && DataWritten(g, s, s', i, j, sectors)
    ensures Consistent(g, s') && SameSnapDisks(g, s, s')
    ensures ClusterWritten(g, s, s', i, j, TableAt(s.d, s.l1[i].cluster)[j].cluster, sectors)
  {
    DataWriteKeeps(g, s, s', Roots(s), i, j, sectors);
    UpdateSame(Roots(s));
    Assemble(g, s, s');
  }
}

/** Creating, restoring and deleting snapshots, from one consistent image to the next. */
module Qcow2Snap {
  import opened Sums
  import opened Arith
  import opened Qcow2Format
  import opened Qcow2State
  import opened Qcow2Relink
  import opened Qcow2Own
  import opened Qcow2Steps
  import opened Qcow2Grow
  import opened Qcow2Pass
  import opened Qcow2Walk

  // ---------- Looking up a snapshot ----------

  /** The first index of x in xs, or -1. */
  function First(xs: seq<string>, x: string): (i: int)
    ensures -1 <= i < |xs| && (i >= 0 ==> xs[i] == x)
    ensures forall j :: 0 <= j < (if i < 0 then |xs| else i) ==> xs[j] != x
  {
    if xs == [] then -1
    else
      var n := |xs| - 1;
      var i := First(xs[..n], x);
      if i >= 0 then i else if xs[n] == x then n else -1
  }

  /** Ids go before names. */
  function FindIn(ids: seq<string>, names: seq<string>, x: string): (i: int)
    ensures i < 0 <==> x !in ids && x !in names
    ensures -1 <= i && (|ids| == |names| ==> i < |ids|)
  {
    if First(ids, x) >= 0 then First(ids, x) else First(names, x)
  }

  function Ids(snaps: seq<Snapshot>): (r: seq<string>)
    ensures |r| == |snaps|
  {
    seq(|snaps|, i requires 0 <= i < |snaps| => snaps[i].id)
  }

  function Names(snaps: seq<Snapshot>): (r: seq<string>)
    ensures |r| == |snaps|
  {
    seq(|snaps|, i requires 0 <= i < |snaps| => snaps[i].name)
  }

  /** i is the first snapshot with id x, or else the first with name x; -1 if there is neither. */
  predicate Chosen(snaps: seq<Snapshot>, x: string, i: int) {
    if i < 0 then i == -1 && forall j :: 0 <= j < |snaps| ==> snaps[j].id != x && snaps[j].name != x
    else
      && i < |snaps|
      && ((snaps[i].id == x && forall j :: 0 <= j < i ==> snaps[j].id != x)
        || (snaps[i].name == x && (forall j :: 0 <= j < |snaps| ==> snaps[j].id != x)
            && forall j :: 0 <= j < i ==> snaps[j].name != x))
  }

  lemma FindInChosen(snaps: seq<Snapshot>, x: string)
    ensures Chosen(snaps, x, FindIn(Ids(snaps), Names(snaps), x))
  {
    var ids, names := Ids(snaps), Names(snaps);
    forall j | 0 <= j < |snaps| ensures ids[j] == snaps[j].id && names[j] == snaps[j].name {}
  }

  // ---------- Counts stay in range ----------

  lemma {:induction false} SumAtMost(s: seq<nat>)
    requires forall i :: 0 <= i < |s| ==> s[i] <= 1
    ensures Sum(s) <= |s|
  {
    if s != [] {
      SumAtMost(s[..|s| - 1]);
    }
  }

  /** A reached cluster is held by nothing but the paths of the counted tables, once by each at most. */
  lemma ReachedBound(g: Geometry, s: Img, roots: seq<seq<Entry>>, r: nat, c: nat)
    requires Sound(g, s, roots) && r < |roots| && PathRefs(s.d, roots[r], c) > 0
    ensures 0 < CountOf(s.cnt, c) <= |roots|
  {
    ReachedIsCounted(g, s, roots, r, c);
    ReachedNotOwn(g, s, c);
    var w := RootWeights(s.d, roots, c);
    forall i | 0 <= i < |w| ensures w[i] <= 1 {
      assert RootInj(s.d, roots[i]);
    }
    SumAtMost(w);
    assert CountOf(s.cnt, c) == OwnRefs(g, s, c) + RootsRefs(s.d, roots, c);
  }

  lemma ReachedNotOwn(g: Geometry, s: Img, c: nat)
    requires OwnShape(g, s) && c in s.d && (s.d[c].Table? || s.d[c].Data?)
    ensures OwnRefs(g, s, c) == 0
  {
    forall i | 0 <= i < |s.snaps| ensures !InRun(s.snaps[i].l1, L1Clusters(g, s.snaps[i].l1Size), c) {
      assert StoredRun(g, s.d, s.snaps[i].l1, s.snaps[i].l1Size);
    }
    NoSnapRun(g, s.snaps, c);
    assert c !in s.leaked;
  }

  lemma NoSnapRun(g: Geometry, snaps: seq<Snapshot>, c: nat)
    requires forall i :: 0 <= i < |snaps| ==> !InRun(snaps[i].l1, L1Clusters(g, snaps[i].l1Size), c)
    ensures SnapRunRefs(g, snaps, c) == 0
  {
    hide InRun, L1Clusters;
    if SnapRunRefs(g, snaps, c) > 0 {
      var i := SumWitness(SnapRunWeights(g, snaps, c));
    }
  }

  lemma RangeDown(g: Geometry, s: Img, roots: seq<seq<Entry>>, r: nat)
    requires Sound(g, s, roots) && r < |roots| && |roots| <= MAX_COUNT
    ensures InRange(s, roots[r], -1) && InRange(s, roots[r], 0)
  {
    forall c: nat | PathRefs(s.d, roots[r], c) > 0 ensures 0 < CountOf(s.cnt, c) <= MAX_COUNT {
      ReachedBound(g, s, roots, r, c);
    }
  }

  lemma RangeUp(g: Geometry, s: Img, roots: seq<seq<Entry>>, r: nat, l1: seq<Entry>)
    requires Sound(g, s, roots) && r < |roots| && |roots| < MAX_COUNT
    requires forall c: nat :: PathRefs(s.d, l1, c) == PathRefs(s.d, roots[r], c)
    ensures InRange(s, l1, 1)
  {
    forall c: nat | PathRefs(s.d, l1, c) > 0 ensures 0 < CountOf(s.cnt, c) < MAX_COUNT {
      ReachedBound(g, s, roots, r, c);
    }
  }

  lemma BoundedPassed(s: Img, s': Img, at: nat, l1: seq<Entry>, addend: int)
    requires Bounded(s) && Passed(s, s', at, l1, addend) && -1 <= addend <= 1 && InRange(s, l1, addend)
    requires RootInj(s.d, l1)
    ensures Bounded(s')
  {
    forall c: nat ensures CountOf(s'.cnt, c) <= MAX_COUNT {
      assert PathRefs(s.d, l1, c) <= 1;
    }
  }

  // ---------- The stored snapshot table ----------

  function Align8(n: nat): nat { (n + 7) / 8 * 8 }

  /** Bytes of the snapshot table: a 40-byte header, aligned to 8, then id and name, for each snapshot. */
  function SnapBytes(snaps: seq<Snapshot>): nat {
    if snaps == [] then 0
    else
      var last := snaps[|snaps| - 1];
      Align8(SnapBytes(snaps[..|snaps| - 1])) + 40 + |last.id| + |last.name|
  }

  /** Clusters that n bytes take. */
  function ByteClusters(g: Geometry, n: nat): nat { (n + 512 * g.cs - 1) / (512 * g.cs) }

  /** The least number of clusters that hold n bytes. */
  lemma ByteClustersHold(g: Geometry, n: nat)
    ensures n <= 512 * g.cs * ByteClusters(g, n) < n + 512 * g.cs
  {
    var size := 512 * g.cs;
    assert (n + size - 1) / size * size <= n + size - 1 < (n + size - 1) / size * size + size;
  }

  /** Record i of the snapshot table starts at the next multiple of 8. Its header has an offset, the size of the L1
      table, two string lengths, a date in two parts, a clock, and two sizes; the strings follow. */
  lemma SnapRecord(snaps: seq<Snapshot>, i: nat)
    requires i < |snaps|
    ensures exists start: nat ::
      && start % 8 == 0 && SnapBytes(snaps[..i]) <= start < SnapBytes(snaps[..i]) + 8
      && SnapBytes(snaps[..i + 1])
        == start + (8 + 4 + 2 + 2 + 4 + 4 + 8 + 4 + 4) + |snaps[i].id| + |snaps[i].name|
  {
    var start := Align8(SnapBytes(snaps[..i]));
    assert snaps[..i + 1][..i] == snaps[..i];
    assert start % 8 == 0 && SnapBytes(snaps[..i]) <= start < SnapBytes(snaps[..i]) + 8;
  }

  function SnapClusters(g: Geometry, snaps: seq<Snapshot>): nat { ByteClusters(g, SnapBytes(snaps)) }

  lemma SnapBytesPositive(g: Geometry, snaps: seq<Snapshot>)
    ensures snaps != [] ==> SnapClusters(g, snaps) > 0
  {
    if snaps != [] {
      MulMono(1, g.cs, 512);
      DivPositive(SnapBytes(snaps) + 512 * g.cs - 1, 512 * g.cs);
    }
  }

  lemma DivPositive(a: int, b: int)
    requires 0 < b <= a
    ensures a / b > 0
  {
  }

  function PutSnaps(d: Disk, at: nat, n: nat, snaps: seq<Snapshot>): Disk {
    if n == 0 then d else PutSnaps(d, at, n - 1, snaps)[at + n - 1 := if n == 1 then SnapHead(snaps) else SnapTail(at)]
  }

  lemma {:induction false} PutSnapsAt(d: Disk, at: nat, n: nat, snaps: seq<Snapshot>)
    ensures var d' := PutSnaps(d, at, n, snaps);
      forall k: nat :: InRun(at, n, k) ==> k in d' && d'[k] == if k == at then SnapHead(snaps) else SnapTail(at)
    ensures forall k: nat ::
      !InRun(at, n, k) && k in d ==> k in PutSnaps(d, at, n, snaps) && PutSnaps(d, at, n, snaps)[k] == d[k]
  {
    if n > 0 {
      PutSnapsAt(d, at, n - 1, snaps);
    }
  }

  /** The snapshot table is now stored in the freshly allocated run at `at`; `cnt` is what freeing the old run left. */
  function MoveSnaps(s2: Img, at: nat, n: nat, cnt: map<nat, nat>): Img {
    s2.(d := PutSnaps(s2.d, at, n, s2.snaps), cnt := cnt, snapAt := at, snapLen := n)
  }

  lemma MoveSnapsKeeps(s: Img, s2: Img, at: nat, n: nat, cnt: map<nat, nat>)
    requires Allocated(s, s2, at, n)
    ensures var d' := MoveSnaps(s2, at, n, cnt).d;
      && Kept(s, d', {})
      && (forall k :: at <= k < at + n ==> k in d' && (d'[k].SnapHead? || d'[k].SnapTail?))
      && (forall c :: c in s2.meta ==> c in d' && d'[c].Refcounting())
      && (n > 0 ==> at in d' && d'[at] == SnapHead(s2.snaps))
  {
    var d' := MoveSnaps(s2, at, n, cnt).d;
    PutSnapsAt(s2.d, at, n, s2.snaps);
    forall k: nat | at <= k < at + n ensures k in d' && (d'[k].SnapHead? || d'[k].SnapTail?) {
      assert InRun(at, n, k);
    }
    forall c: nat | c in s.d && CountOf(s.cnt, c) > 0 && c !in s.meta ensures c in d' && d'[c] == s.d[c] {
      assert !InRun(at, n, c);
    }
    forall c | c in s2.meta ensures c in d' && d'[c].Refcounting() {
      assert !InRun(at, n, c);
    }
    assert n > 0 ==> InRun(at, n, at);
  }

  lemma MoveSnapsOwn(g: Geometry, s: Img, s2: Img, roots: seq<seq<Entry>>, at: nat, n: nat, cnt: map<nat, nat>)
    requires Sound(g, s, roots) && Allocated(s, s2, at, n)
    ensures OwnShape(g, MoveSnaps(s2, at, n, cnt))
    ensures SnapRoots(MoveSnaps(s2, at, n, cnt).d, s.snaps) == SnapRoots(s.d, s.snaps)
  {
    MoveSnapsKeeps(s, s2, at, n, cnt);
    OwnKept(g, s, MoveSnaps(s2, at, n, cnt).d, roots, {});
  }

  lemma MoveSnapsCounts(g: Geometry, s: Img, s2: Img, at: nat, n: nat, cnt: map<nat, nat>)
    requires Allocated(s, s2, at, n) && Freed(s2.cnt, cnt, s.snapAt, s.snapLen)
    ensures forall c: nat ::
      CountOf(cnt, c) + OwnRefs(g, s, c) == CountOf(s.cnt, c) + OwnRefs(g, MoveSnaps(s2, at, n, cnt), c)
  {
    forall c: nat
      ensures CountOf(cnt, c) + OwnRefs(g, s, c) == CountOf(s.cnt, c) + OwnRefs(g, MoveSnaps(s2, at, n, cnt), c)
    {
      assert CountOf(cnt, c) + B(InRun(s.snapAt, s.snapLen, c)) == CountOf(s2.cnt, c);
    }
  }

  lemma MoveSnapsPaths(g: Geometry, s: Img, s2: Img, at: nat, n: nat, cnt: map<nat, nat>, c: nat)
    requires Allocated(s, s2, at, n) && Freed(s2.cnt, cnt, s.snapAt, s.snapLen) && OwnShape(g, s)
    requires CountOf(s.cnt, c) > 0 && c in s.d && (s.d[c].Table? || s.d[c].Data?)
    ensures CountOf(cnt, c) == CountOf(s.cnt, c)
  {
    assert !InRun(at, n, c) && c !in s.meta && c !in s2.meta;
    assert CountOf(cnt, c) + B(InRun(s.snapAt, s.snapLen, c)) == CountOf(s2.cnt, c);
  }

  /** Moving the stored snapshot table leaves every path alone. */
  lemma SnapsMoved(g: Geometry, s: Img, s2: Img, roots: seq<seq<Entry>>, at: nat, n: nat, cnt: map<nat, nat>)
    requires Sound(g, s, roots) && Allocated(s, s2, at, n) && Freed(s2.cnt, cnt, s.snapAt, s.snapLen)
    ensures var s' := MoveSnaps(s2, at, n, cnt);
      OwnMoved(g, s, s') && SnapRoots(s'.d, s.snaps) == SnapRoots(s.d, s.snaps)
  {
    hide SnapRunRefs, Exact, RootsOK, SnapRoots, OwnRefs, PutSnaps, Freed, OwnShape;
    var s' := MoveSnaps(s2, at, n, cnt);
    MoveSnapsKeeps(s, s2, at, n, cnt);
    MoveSnapsOwn(g, s, s2, roots, at, n, cnt);
    MoveSnapsCounts(g, s, s2, at, n, cnt);
    forall c: nat | CountOf(s.cnt, c) > 0 && c in s.d && (s.d[c].Table? || s.d[c].Data?)
      ensures CountOf(s'.cnt, c) == CountOf(s.cnt, c)
    {
      MoveSnapsPaths(g, s, s2, at, n, cnt, c);
    }
  }

  lemma SnapsMovedAll(g: Geometry, s: Img, s2: Img, roots: seq<seq<Entry>>, at: nat, n: nat, cnt: map<nat, nat>,
      cache: L2Cache)
    requires Sound(g, s, roots) && Allocated(s, s2, at, n) && Freed(s2.cnt, cnt, s.snapAt, s.snapLen)
    requires Coherent(s.d, s.cnt, cache) && Bounded(s)
    ensures var s' := MoveSnaps(s2, at, n, cnt);
      && OwnMoved(g, s, s') && SnapRoots(s'.d, s.snaps) == SnapRoots(s.d, s.snaps)
      && Coherent(s'.d, s'.cnt, cache) && Bounded(s')
  {
    hide Exact, RootsOK, SnapRoots, OwnMoved, Coherent, Allocated, Freed, OwnShape;
    SnapsMoved(g, s, s2, roots, at, n, cnt);
    CoherentMoved(g, s, MoveSnaps(s2, at, n, cnt), cache);
    BoundedAfterSwap(s, s2, at, n, s.snapAt, s.snapLen, cnt);
  }

  lemma BoundedAfterSwap(s: Img, s2: Img, at: nat, n: nat, old1: nat, m: nat, cnt: map<nat, nat>)
    requires Bounded(s) && Allocated(s, s2, at, n) && Freed(s2.cnt, cnt, old1, m)
    ensures forall c: nat :: CountOf(cnt, c) <= MAX_COUNT
  {
    forall c: nat ensures CountOf(cnt, c) <= MAX_COUNT {
      assert CountOf(cnt, c) + B(InRun(old1, m, c)) == CountOf(s2.cnt, c);
    }
  }

  lemma SnapRunOwned(g: Geometry, s: Img)
    requires OwnShape(g, s)
    ensures RunOwned(g, s, s.snapAt, s.snapLen)
  {
  }

  /** The stored snapshot table is counted once. */
  lemma SnapRunOnce(g: Geometry, s: Img, roots: seq<seq<Entry>>, c: nat)
    requires Sound(g, s, roots) && InRun(s.snapAt, s.snapLen, c)
    ensures CountOf(s.cnt, c) == 1
  {
    hide PathRefs, L1Clusters;
    assert c in s.d && (s.d[c].SnapHead? || s.d[c].SnapTail?);
    if RootsRefs(s.d, roots, c) > 0 {
      var r := SumWitness(RootWeights(s.d, roots, c));
      ReachedIsCounted(g, s, roots, r, c);
    }
    SnapRunHeldOnce(g, s, c);
    assert CountOf(s.cnt, c) == OwnRefs(g, s, c) + RootsRefs(s.d, roots, c);
  }

  lemma SnapRunHeldOnce(g: Geometry, s: Img, c: nat)
    requires OwnShape(g, s) && InRun(s.snapAt, s.snapLen, c)
    ensures OwnRefs(g, s, c) == 1
  {
    assert c in s.d && (s.d[c].SnapHead? || s.d[c].SnapTail?);
    forall i | 0 <= i < |s.snaps| ensures !InRun(s.snaps[i].l1, L1Clusters(g, s.snaps[i].l1Size), c) {
      assert StoredRun(g, s.d, s.snaps[i].l1, s.snaps[i].l1Size);
    }
    NoSnapRun(g, s.snaps, c);
    assert c !in s.leaked;
  }

  /** Moving what the image holds keeps it consistent when the active table and the snapshots stay the same. */
  lemma OwnStep(g: Geometry, s: Img, s': Img)
    requires Consistent(g, s) && OwnMoved(g, s, s') && s'.l1 == s.l1
    requires s'.snaps == s.snaps && SnapRoots(s'.d, s.snaps) == SnapRoots(s.d, s.snaps)
    ensures Consistent(g, s') && SameActiveDisk(g, s, s') && SameSnapDisks(g, s, s')
  {
    var roots := Roots(s);
    assert roots[0] == s.l1;
    OwnMovedKeeps(g, s, s', roots);
    UpdateSame(roots);
    assert PathsKept(g, s.d, s'.d, roots[0]);
    Assemble(g, s, s');
  }

  // ---------- Creating a snapshot: the pass ----------

  function Erase(l1: seq<Entry>): (r: seq<Entry>)
    ensures |r| == |l1|
  {
    seq(|l1|, i requires 0 <= i < |l1| => Entry(l1[i].cluster, false))
  }

  lemma EraseRoot(g: Geometry, s: Img, l1: seq<Entry>)
    requires RootOK(g, s.d, s.cnt, l1) && RootInj(s.d, l1)
    ensures RootOK(g, s.d, s.cnt, Erase(l1)) && RootInj(s.d, Erase(l1)) && SameTable(Erase(l1), l1) && Plain(Erase(l1))
    ensures forall c: nat :: PathRefs(s.d, Erase(l1), c) == PathRefs(s.d, l1, c)
    ensures forall k: nat :: Look(g, s.d, Erase(l1), k) == Look(g, s.d, l1, k)
  {
    var m := Erase(l1);
    forall i | 0 <= i < |l1| ensures l1[i].cluster == 0 ==> m[i] == l1[i] {
      assert EntryShape(g, s.d, l1[i]);
    }
    FlagsSelf(s.d);
    FlagsKeepRoot(g, s.d, s.d, l1, m);
    assert forall c: nat :: PathRefs(s.d, l1, c) <= 1;
  }

  lemma FlagsSelf(d: Disk)
    ensures FlagsOnly(d, d)
  {
  }

  lemma EraseSound(g: Geometry, s: Img, roots: seq<seq<Entry>>)
    requires |roots| > 0 && Sound(g, s, roots)
    ensures Sound(g, s, roots[0 := Erase(roots[0])]) && SameTable(Erase(roots[0]), roots[0]) && Plain(Erase(roots[0]))
    ensures forall k: nat :: Look(g, s.d, Erase(roots[0]), k) == Look(g, s.d, roots[0], k)
    ensures forall c: nat :: PathRefs(s.d, Erase(roots[0]), c) == PathRefs(s.d, roots[0], c)
  {
    assert RootOK(g, s.d, s.cnt, roots[0]) && RootInj(s.d, roots[0]);
    EraseRoot(g, s, roots[0]);
    var roots' := roots[0 := Erase(roots[0])];
    forall c: nat ensures CountOf(s.cnt, c) == OwnRefs(g, s, c) + RootsRefs(s.d, roots', c) {
      RootsSame(s.d, roots, s.d, roots', c);
    }
  }

  /** Once counted twice, no entry of the active L1 table is flagged. */
  lemma TwiceIsPlain(g: Geometry, s: Img, s1: Img, roots: seq<seq<Entry>>)
    requires |roots| > 0 && roots[0] == s.l1 && Sound(g, s, roots) && Passed(s, s1, s.l1At, s.l1, 1)
    ensures s1.l1 == Erase(s.l1)
  {
    forall i | 0 <= i < |s.l1| ensures ReflagAll(s1.cnt, s.l1)[i] == Entry(s.l1[i].cluster, false) {
      if s.l1[i].cluster != 0 {
        PathLeaf(s.d, s.l1, i, 0);
        ReachedIsCounted(g, s, roots, 0, s.l1[i].cluster);
      }
    }
  }

  lemma CreatePass(g: Geometry, s: Img, s1: Img, roots: seq<seq<Entry>>)
    requires |roots| > 0 && roots[0] == s.l1 && Sound(g, s, roots) && Passed(s, s1, s.l1At, s.l1, 1)
    ensures Sound(g, s1, roots[0 := s1.l1] + [s1.l1]) && RootExact(s1.d, s1.cnt, s1.l1) && Plain(s1.l1)
    ensures |s1.l1| == |s.l1|
    ensures forall k: nat :: Look(g, s1.d, s1.l1, k) == Look(g, s.d, s.l1, k)
    ensures forall r :: 0 < r < |roots| ==> RootPassed(g, s, s1, roots[r])
  {
    TwiceIsPlain(g, s, s1, roots);
    EraseSound(g, s, roots);
    var erased := roots[0 := Erase(s.l1)];
    PassUp(g, s, s1, s.l1At, erased, 0, s.l1);
    forall r | 0 < r < |roots| ensures RootPassed(g, s, s1, roots[r]) {
      assert RootPassed(g, s, s1, erased[r]);
    }
  }

  /** A pass over the active table leaves the snapshots' stored tables alone. */
  lemma PassKeepsSnapRoots(g: Geometry, s: Img, s1: Img, addend: int)
    requires OwnShape(g, s) && Passed(s, s1, s.l1At, s.l1, addend)
    ensures OwnShape(g, s1) && s1.snaps == s.snaps && SnapRoots(s1.d, s1.snaps) == SnapRoots(s.d, s.snaps)
  {
    PassedOwn(g, s, s1, s.l1At, s.l1, addend);
    forall i | 0 <= i < |s.snaps| ensures SnapRoots(s1.d, s.snaps)[i] == SnapRoots(s.d, s.snaps)[i] {
      assert s.snaps[i].l1 != s.l1At;
    }
  }

  // ---------- Creating a snapshot: its L1 table ----------

  /** A snapshot whose L1 table, equal to the active one, is stored in the freshly allocated run at `at`. */
  function AddSnap(g: Geometry, s2: Img, at: nat, id: string, name: string): Img {
    s2.(d := PutL1(s2.d, at, L1Clusters(g, |s2.l1|), s2.l1), snaps := s2.snaps + [Snapshot(at, |s2.l1|, id, name)])
  }

  lemma AddSnapKeeps(g: Geometry, s: Img, s2: Img, at: nat, id: string, name: string)
    requires Allocated(s, s2, at, L1Clusters(g, |s.l1|)) && |s.l1| > 0
    ensures Kept(s, AddSnap(g, s2, at, id, name).d, {}) && StoredL1(g, AddSnap(g, s2, at, id, name).d, at, s.l1)
    ensures forall c ::
      c in s2.meta ==> c in AddSnap(g, s2, at, id, name).d && AddSnap(g, s2, at, id, name).d[c].Refcounting()
  {
    MoveL1Keeps(g, s, s2, at, s.l1, s2.cnt);
  }

  lemma AddSnapOwn(g: Geometry, s: Img, s2: Img, roots: seq<seq<Entry>>, at: nat, id: string, name: string)
    requires Sound(g, s, roots) && Allocated(s, s2, at, L1Clusters(g, |s.l1|))
    ensures OwnShape(g, AddSnap(g, s2, at, id, name))
    ensures SnapRoots(AddSnap(g, s2, at, id, name).d, AddSnap(g, s2, at, id, name).snaps)
      == SnapRoots(s.d, s.snaps) + [s.l1]
  {
    hide L1Clusters, Exact, RootsOK;
    var s3 := AddSnap(g, s2, at, id, name);
    AddSnapKeeps(g, s, s2, at, id, name);
    OwnKept(g, s, s3.d, roots, {});
    assert InRun(at, L1Clusters(g, |s.l1|), at) by { L1ClustersPositive(g, |s.l1|); }
    ActiveL1Counted(g, s, roots);
    forall i | 0 <= i < |s.snaps| ensures s.snaps[i].l1 != at {
      SnapL1Counted(g, s, roots, i);
    }
    AddSnapRoots(s.d, s3.d, s.snaps, s3.snaps[|s.snaps|], s.l1);
  }

  lemma AddSnapRoots(d: Disk, d': Disk, snaps: seq<Snapshot>, sn: Snapshot, l1: seq<Entry>)
    requires SnapRoots(d', snaps) == SnapRoots(d, snaps) && L1At(d', sn.l1, sn.l1Size) == l1
    ensures SnapRoots(d', snaps + [sn]) == SnapRoots(d, snaps) + [l1]
  {
    forall i | 0 <= i < |snaps| ensures SnapRoots(d', snaps + [sn])[i] == SnapRoots(d, snaps)[i] {
      assert SnapRoots(d', snaps)[i] == SnapRoots(d, snaps)[i];
    }
  }

  lemma AddSnapCounts(g: Geometry, s: Img, s2: Img, at: nat, id: string, name: string)
    requires Allocated(s, s2, at, L1Clusters(g, |s.l1|))
    ensures forall c: nat ::
      CountOf(s2.cnt, c) + OwnRefs(g, s, c) == CountOf(s.cnt, c) + OwnRefs(g, AddSnap(g, s2, at, id, name), c)
  {
    var s3 := AddSnap(g, s2, at, id, name);
    forall c: nat ensures CountOf(s2.cnt, c) + OwnRefs(g, s, c) == CountOf(s.cnt, c) + OwnRefs(g, s3, c) {
      var w := SnapRunWeights(g, s3.snaps, c);
      assert w[..|w| - 1] == SnapRunWeights(g, s.snaps, c);
    }
  }

  lemma AddSnapAll(g: Geometry, s: Img, s2: Img, roots: seq<seq<Entry>>, at: nat, id: string, name: string,
      cache: L2Cache)
    requires Sound(g, s, roots) && Allocated(s, s2, at, L1Clusters(g, |s.l1|)) && Coherent(s.d, s.cnt, cache)
    requires Bounded(s)
    ensures var s' := AddSnap(g, s2, at, id, name);
      && OwnMoved(g, s, s') && SnapRoots(s'.d, s'.snaps) == SnapRoots(s.d, s.snaps) + [s.l1]
      && Coherent(s'.d, s'.cnt, cache) && Bounded(s')
  {
    hide L1Clusters, SnapRunRefs, Exact, RootsOK, SnapRoots;
    var s' := AddSnap(g, s2, at, id, name);
    AddSnapKeeps(g, s, s2, at, id, name);
    AddSnapOwn(g, s, s2, roots, at, id, name);
    AddSnapCounts(g, s, s2, at, id, name);
    forall c: nat | CountOf(s.cnt, c) > 0 && c in s.d && (s.d[c].Table? || s.d[c].Data?)
      ensures CountOf(s'.cnt, c) == CountOf(s.cnt, c)
    {
      assert !InRun(at, L1Clusters(g, |s.l1|), c) && c !in s.meta && c !in s2.meta;
    }
    CoherentMoved(g, s, s', cache);
  }

  /** A snapshot has been added that reads as the active disk does; every other disk reads as before. */
  ghost predicate Created(g: Geometry, s: Img, s': Img, id: string, name: string) {
    && |s'.snaps| == |s.snaps| + 1 && s'.snaps[..|s.snaps|] == s.snaps
    && s'.snaps[|s.snaps|].id == id && s'.snaps[|s.snaps|].name == name
    && |s'.l1| == |s.l1| && s'.snaps[|s.snaps|].l1Size == |s.l1|
    && (forall k: nat :: SnapLook(g, s', |s.snaps|, k) == Look(g, s.d, s.l1, k))
    && (forall k: nat :: Look(g, s'.d, s'.l1, k) == Look(g, s.d, s.l1, k))
    && (forall i, k: nat :: 0 <= i < |s.snaps| ==> SnapLook(g, s', i, k) == SnapLook(g, s, i, k))
  }

  lemma CreateRoots(s: Img, s1: Img, s3: Img)
    requires SnapRoots(s1.d, s1.snaps) == SnapRoots(s.d, s.snaps)
    requires SnapRoots(s3.d, s3.snaps) == SnapRoots(s1.d, s1.snaps) + [s1.l1] && s3.l1 == s1.l1
    ensures Roots(s)[0 := s1.l1] + [s1.l1] == Roots(s3)
  {
  }

  lemma CreatePlain(s: Img, s3: Img)
    requires SnapRoots(s3.d, s3.snaps) == SnapRoots(s.d, s.snaps) + [s3.l1] && SnapsPlain(s.d, s.snaps) && Plain(s3.l1)
    ensures SnapsPlain(s3.d, s3.snaps)
  {
    forall i | 0 <= i < |s3.snaps| ensures Plain(L1At(s3.d, s3.snaps[i].l1, s3.snaps[i].l1Size)) {
      assert L1At(s3.d, s3.snaps[i].l1, s3.snaps[i].l1Size) == SnapRoots(s3.d, s3.snaps)[i];
      if i < |s.snaps| {
        assert SnapRoots(s.d, s.snaps)[i] == L1At(s.d, s.snaps[i].l1, s.snaps[i].l1Size);
      }
    }
  }

  lemma CreateSnaps(g: Geometry, s: Img, s1: Img, s3: Img)
    requires |s3.snaps| == |s.snaps| + 1 && Roots(s)[0 := s1.l1] + [s1.l1] == Roots(s3)
    requires forall r :: 0 < r < |Roots(s)| ==> RootPassed(g, s, s1, Roots(s)[r])
    requires forall r :: 0 <= r < |Roots(s3)| ==> PathsKept(g, s1.d, s3.d, Roots(s3)[r])
    ensures forall i, k: nat :: 0 <= i < |s.snaps| ==> SnapLook(g, s3, i, k) == SnapLook(g, s, i, k)
    ensures forall k: nat :: SnapLook(g, s3, |s.snaps|, k) == Look(g, s1.d, s1.l1, k)
  {
    var roots, after := Roots(s), Roots(s3);
    forall i, k: nat | 0 <= i < |s.snaps| ensures SnapLook(g, s3, i, k) == SnapLook(g, s, i, k) {
      assert RootPassed(g, s, s1, roots[i + 1]);
      assert PathsKept(g, s1.d, s3.d, after[i + 1]) && after[i + 1] == roots[i + 1];
    }
    assert PathsKept(g, s1.d, s3.d, after[|s.snaps| + 1]) && after[|s.snaps| + 1] == s1.l1;
  }

  /** The pass and the new table together make a consistent image with one more snapshot. */
  lemma CreateStep(g: Geometry, s: Img, s1: Img, s3: Img, id: string, name: string)
    requires Consistent(g, s) && Passed(s, s1, s.l1At, s.l1, 1) && OwnMoved(g, s1, s3)
    requires s3.l1 == s1.l1 && |s3.snaps| == |s1.snaps| + 1 && s3.snaps[..|s1.snaps|] == s1.snaps
    requires s3.snaps[|s1.snaps|].id == id && s3.snaps[|s1.snaps|].name == name
    requires s3.snaps[|s1.snaps|].l1Size == |s3.l1|
    requires SnapRoots(s3.d, s3.snaps) == SnapRoots(s1.d, s1.snaps) + [s1.l1]
    ensures Consistent(g, s3) && Created(g, s, s3, id, name)
  {
    var roots, after := Roots(s), Roots(s3);
    PassKeepsSnapRoots(g, s, s1, 1);
    CreatePass(g, s, s1, roots);
    CreateRoots(s, s1, s3);
    OwnMovedKeeps(g, s1, s3, after);
    CreatePlain(s, s3);
    assert PathsKept(g, s1.d, s3.d, after[0]) && after[0] == s1.l1;
    assert RootExact(s3.d, s3.cnt, s3.l1);
    CreateSnaps(g, s, s1, s3);
  }

  lemma CreatedThen(g: Geometry, s: Img, s3: Img, s': Img, id: string, name: string)
    requires Created(g, s, s3, id, name) && SameActiveDisk(g, s3, s') && SameSnapDisks(g, s3, s') && s'.l1 == s3.l1
    ensures Created(g, s, s', id, name)
  {
    forall k: nat ensures SnapLook(g, s', |s.snaps|, k) == Look(g, s.d, s.l1, k) {
      assert SnapLook(g, s', |s.snaps|, k) == SnapLook(g, s3, |s.snaps|, k);
    }
    forall i, k: nat | 0 <= i < |s.snaps| ensures SnapLook(g, s', i, k) == SnapLook(g, s, i, k) {
      assert SnapLook(g, s', i, k) == SnapLook(g, s3, i, k);
    }
  }

  // ---------- Restoring a snapshot ----------

  /** The clusters of a run. */
  function RunClusters(at: nat, n: nat): multiset<nat> {
    if n == 0 then multiset{} else RunClusters(at, n - 1) + multiset{at + n - 1}
  }

  lemma {:induction false} RunClustersAt(at: nat, n: nat, c: nat)
    ensures RunClusters(at, n)[c] == B(InRun(at, n, c)) && |RunClusters(at, n)| == n
  {
    if n > 0 {
      RunClustersAt(at, n - 1, c);
    }
  }

  /** The clusters an L1 table at `at` no longer needs when it goes from m entries to n. */
  function Spare(g: Geometry, at: nat, n: nat, m: nat): multiset<nat> {
    var a, b := L1Clusters(g, n), L1Clusters(g, m);
    if a <= b then RunClusters(at + a, b - a) else multiset{}
  }

  /** The least number of clusters that hold an L1 table, at 8 bytes an entry. */
  lemma L1ClustersHold(g: Geometry, n: nat)
    ensures 8 * n <= 512 * g.cs * L1Clusters(g, n) < 8 * n + 512 * g.cs
  {
    var m := g.L2Size();
    assert (n + m - 1) / m * m <= n + m - 1 < (n + m - 1) / m * m + m;
    assert 512 * g.cs * L1Clusters(g, n) == 8 * (L1Clusters(g, n) * m);
  }

  lemma L1ClustersMono(g: Geometry, n: nat, m: nat)
    requires n <= m
    ensures L1Clusters(g, n) <= L1Clusters(g, m)
  {
    DivMono(n + g.L2Size() - 1, m + g.L2Size() - 1, g.L2Size());
  }

  lemma SpareAt(g: Geometry, at: nat, n: nat, m: nat, c: nat)
    requires n <= m
    ensures B(InRun(at, L1Clusters(g, n), c)) + Spare(g, at, n, m)[c] == B(InRun(at, L1Clusters(g, m), c))
    ensures Spare(g, at, n, m) == multiset{} <==> L1Clusters(g, n) == L1Clusters(g, m)
  {
    L1ClustersMono(g, n, m);
    RunClustersAt(at + L1Clusters(g, n), L1Clusters(g, m) - L1Clusters(g, n), c);
  }

  /** The active L1 table is overwritten by l1, which may be shorter. The clusters its tail occupied
      keep their counts, though nothing refers to them any more. */
  function Overlaid(g: Geometry, s: Img, l1: seq<Entry>): Img
    requires s.l1At in s.d && s.d[s.l1At].L1Head? && |l1| <= |s.d[s.l1At].entries|
  {
    s.(d := s.d[s.l1At := L1Head(l1 + s.d[s.l1At].entries[|l1|..])], l1 := l1,
       leaked := s.leaked + Spare(g, s.l1At, |l1|, |s.l1|))
  }

  lemma OverlaidShape(g: Geometry, s: Img, l1: seq<Entry>)
    requires OwnShape(g, s) && 0 < |l1| <= |s.l1|
    ensures OwnShape(g, Overlaid(g, s, l1))
    ensures SnapRoots(Overlaid(g, s, l1).d, s.snaps) == SnapRoots(s.d, s.snaps)
  {
    var s' := Overlaid(g, s, l1);
    L1ClustersMono(g, |l1|, |s.l1|);
    assert (l1 + s.d[s.l1At].entries[|l1|..])[..|l1|] == l1;
    forall i | 0 <= i < |s.snaps|
      ensures StoredRun(g, s'.d, s.snaps[i].l1, s.snaps[i].l1Size)
      ensures L1At(s'.d, s.snaps[i].l1, s.snaps[i].l1Size) == L1At(s.d, s.snaps[i].l1, s.snaps[i].l1Size)
    {
      assert s.snaps[i].l1 != s.l1At && StoredRun(g, s.d, s.snaps[i].l1, s.snaps[i].l1Size);
    }
    forall c | c in s'.leaked ensures c in s'.d && (s'.d[c].L1Head? || s'.d[c].L1Tail?) {
      SpareAt(g, s.l1At, |l1|, |s.l1|, c);
    }
  }

  lemma OverlaidAll(g: Geometry, s: Img, l1: seq<Entry>, cache: L2Cache)
    requires OwnShape(g, s) && 0 < |l1| <= |s.l1| && Coherent(s.d, s.cnt, cache)
    ensures OwnMoved(g, s, Overlaid(g, s, l1)) && Coherent(Overlaid(g, s, l1).d, s.cnt, cache)
    ensures SnapRoots(Overlaid(g, s, l1).d, s.snaps) == SnapRoots(s.d, s.snaps)
    ensures Overlaid(g, s, l1).leaked == s.leaked <==> L1Clusters(g, |l1|) == L1Clusters(g, |s.l1|)
  {
    var s' := Overlaid(g, s, l1);
    OverlaidShape(g, s, l1);
    forall c: nat ensures OwnRefs(g, s', c) == OwnRefs(g, s, c) {
      SpareAt(g, s.l1At, |l1|, |s.l1|, c);
    }
    SpareAt(g, s.l1At, |l1|, |s.l1|, 0);
    if s'.leaked == s.leaked {
      assert |s'.leaked| == |s.leaked| + |Spare(g, s.l1At, |l1|, |s.l1|)|;
    }
    CoherentMoved(g, s, s', cache);
  }

  /** The active disk now reads as snapshot i; every snapshot reads as before. */
  ghost predicate Restored(g: Geometry, s: Img, s': Img, i: nat)
    requires i < |s.snaps|
  {
    SameSnapDisks(g, s, s') && |s'.l1| == s.snaps[i].l1Size && forall k: nat ::
      Look(g, s'.d, s'.l1, k) == SnapLook(g, s, i, k)
  }

  /** Restoring snapshot i loses count of clusters unless its L1 table takes as many clusters as the active one does
      once that has grown to hold as many entries. */
  predicate Leaked(g: Geometry, s: Img, s': Img, i: nat)
    requires i < |s.snaps|
  {
    var size := s.snaps[i].l1Size;
    |s.l1| > 0 && s'.leaked >= s.leaked
    && (s'.leaked == s.leaked <==> L1Clusters(g, size) == L1Clusters(g, GrownSize(|s.l1|, size)))
  }

  lemma {:induction false} RootsRotate(d: Disk, roots: seq<seq<Entry>>, l1: seq<Entry>, c: nat)
    ensures RootsRefs(d, [l1] + roots, c) == RootsRefs(d, roots + [l1], c)
  {
    var w := RootWeights(d, roots, c);
    var x := PathRefs(d, l1, c);
    assert RootWeights(d, [l1] + roots, c) == [x] + w;
    assert RootWeights(d, roots + [l1], c) == w + [x];
    SumAppend([x], w);
    SumAppend(w, [x]);
  }

  lemma SoundRotate(g: Geometry, s: Img, roots: seq<seq<Entry>>, l1: seq<Entry>)
    requires Sound(g, s, roots + [l1])
    ensures Sound(g, s, [l1] + roots)
  {
    var before, after := roots + [l1], [l1] + roots;
    forall r | 0 <= r < |after| ensures RootOK(g, s.d, s.cnt, after[r]) && RootInj(s.d, after[r]) {
      assert after[r] == if r == 0 then before[|roots|] else before[r - 1];
    }
    forall c: nat ensures CountOf(s.cnt, c) == OwnRefs(g, s, c) + RootsRefs(s.d, after, c) {
      RootsRotate(s.d, roots, l1, c);
      assert CountOf(s.cnt, c) == OwnRefs(g, s, c) + RootsRefs(s.d, before, c);
    }
  }

  /** Dropping the active table's references leaves the snapshots' tables counted. */
  lemma GotoDown(g: Geometry, s: Img, s1: Img)
    requires Consistent(g, s) && Passed(s, s1, s.l1At, s.l1, -1)
    ensures Sound(g, s1, SnapRoots(s1.d, s1.snaps)) && SnapRoots(s1.d, s1.snaps) == SnapRoots(s.d, s.snaps)
    ensures s1.snaps == s.snaps
    ensures SameSnapDisks(g, s, s1) && SnapsPlain(s1.d, s1.snaps) && |s1.l1| == |s.l1|
  {
    var roots, after := Roots(s), SnapRoots(s.d, s.snaps);
    PassKeepsSnapRoots(g, s, s1, -1);
    PassDown(g, s, s1, s.l1At, roots, 0);
    assert Without(roots, 0) == after;
    SnapsAfterPass(g, s, s1);
  }

  lemma SnapsAfterPass(g: Geometry, s: Img, s1: Img)
    requires s1.snaps == s.snaps && SnapRoots(s1.d, s1.snaps) == SnapRoots(s.d, s.snaps) && SnapsPlain(s.d, s.snaps)
    requires forall y :: 0 < y < |Roots(s)| ==> RootPassed(g, s, s1, Roots(s)[y])
    ensures SameSnapDisks(g, s, s1) && SnapsPlain(s1.d, s1.snaps)
  {
    forall i | 0 <= i < |s.snaps|
      ensures L1At(s1.d, s.snaps[i].l1, s.snaps[i].l1Size) == L1At(s.d, s.snaps[i].l1, s.snaps[i].l1Size)
      ensures forall k: nat :: SnapLook(g, s1, i, k) == SnapLook(g, s, i, k)
    {
      assert SnapRoots(s1.d, s1.snaps)[i] == SnapRoots(s.d, s.snaps)[i];
      assert RootPassed(g, s, s1, Roots(s)[i + 1]);
    }
  }

  lemma SnapsAfterMove(g: Geometry, s: Img, s1: Img)
    requires Sound(g, s, SnapRoots(s.d, s.snaps)) && OwnMoved(g, s, s1)
    requires s1.snaps == s.snaps && SnapRoots(s1.d, s1.snaps) == SnapRoots(s.d, s.snaps) && SnapsPlain(s.d, s.snaps)
    ensures Sound(g, s1, SnapRoots(s1.d, s1.snaps)) && SameSnapDisks(g, s, s1) && SnapsPlain(s1.d, s1.snaps)
  {
    var roots := SnapRoots(s.d, s.snaps);
    OwnMovedKeeps(g, s, s1, roots);
    forall i | 0 <= i < |s.snaps|
      ensures L1At(s1.d, s.snaps[i].l1, s.snaps[i].l1Size) == L1At(s.d, s.snaps[i].l1, s.snaps[i].l1Size)
      ensures forall k: nat :: SnapLook(g, s1, i, k) == SnapLook(g, s, i, k)
    {
      assert SnapRoots(s1.d, s1.snaps)[i] == SnapRoots(s.d, s.snaps)[i];
      assert PathsKept(g, s.d, s1.d, roots[i]);
    }
  }

  /** Counting the snapshot's table again as the active one. */
  lemma GotoUp(g: Geometry, s: Img, s1: Img, i: nat)
    requires Sound(g, s, SnapRoots(s.d, s.snaps)) && SnapsPlain(s.d, s.snaps) && i < |s.snaps|
    requires s.l1 == SnapRoots(s.d, s.snaps)[i] && Passed(s, s1, s.l1At, s.l1, 1)
    ensures Consistent(g, s1) && Restored(g, s, s1, i)
  {
    hide Look, PathRefs, Exact, RootsOK, RootShape;
    var roots := SnapRoots(s.d, s.snaps);
    PassKeepsSnapRoots(g, s, s1, 1);
    assert Plain(L1At(s.d, s.snaps[i].l1, s.snaps[i].l1Size)) && StoredRun(g, s.d, s.snaps[i].l1, s.snaps[i].l1Size);
    SameTableRefl(s.l1);
    PassUp(g, s, s1, s.l1At, roots, i, s.l1);
    SoundRotate(g, s1, roots, s1.l1);
    assert Roots(s1) == [s1.l1] + roots;
    forall y | 0 < y < |Roots(s)| ensures RootPassed(g, s, s1, Roots(s)[y]) {
      assert Roots(s)[y] == roots[y - 1];
    }
    SnapsAfterPass(g, s, s1);
  }

  lemma RestoredAll(g: Geometry, s: Img, s1: Img, s2: Img, s3: Img, s': Img, i: nat)
    requires i < |s.snaps| && SameSnapDisks(g, s, s1) && SameSnapDisks(g, s1, s2) && SameSnapDisks(g, s2, s3)
    requires Restored(g, s3, s', i)
    ensures Restored(g, s, s', i)
  {
    forall j, k: nat | 0 <= j < |s.snaps| ensures SnapLook(g, s3, j, k) == SnapLook(g, s, j, k) {
      assert SnapLook(g, s1, j, k) == SnapLook(g, s, j, k);
      assert SnapLook(g, s2, j, k) == SnapLook(g, s1, j, k);
    }
    forall j, k: nat | 0 <= j < |s.snaps| ensures SnapLook(g, s', j, k) == SnapLook(g, s, j, k) {
      assert SnapLook(g, s', j, k) == SnapLook(g, s3, j, k);
    }
  }

  // ---------- Deleting a snapshot ----------

  /** Snapshot i is gone; every other disk reads as before. */
  ghost predicate Deleted(g: Geometry, s: Img, s': Img, i: nat)
    requires i < |s.snaps|
  {
    && s'.snaps == Without(s.snaps, i) && |s'.l1| == |s.l1|
    && (forall k: nat :: Look(g, s'.d, s'.l1, k) == Look(g, s.d, s.l1, k))
    && (forall j, k: nat :: 0 <= j < |s'.snaps| ==>
      SnapLook(g, s', j, k) == SnapLook(g, s, if j < i then j else j + 1, k))
  }

  /** The tables left when snapshot i is not counted. */
  function RootsBut(s: Img, i: nat): seq<seq<Entry>>
    requires i < |s.snaps|
  {
    Without(Roots(s), i + 1)
  }

  /** The two passes of a deletion: over the snapshot's table, and over the active one for its flags. */
  lemma DeletePasses(g: Geometry, s: Img, s1: Img, s2: Img, i: nat)
    requires Consistent(g, s) && i < |s.snaps|
    requires Passed(s, s1, s.snaps[i].l1, L1At(s.d, s.snaps[i].l1, s.snaps[i].l1Size), -1)
    requires Passed(s1, s2, s1.l1At, s1.l1, 0)
    ensures Sound(g, s2, RootsBut(s, i)[0 := s2.l1]) && RootExact(s2.d, s2.cnt, s2.l1) && s2.snaps == s.snaps
    ensures forall k: nat :: Look(g, s2.d, s2.l1, k) == Look(g, s.d, s.l1, k)
    ensures forall y, k: nat ::
      0 < y < |s.snaps| ==> Look(g, s2.d, RootsBut(s, i)[y], k) == Look(g, s.d, RootsBut(s, i)[y], k)
  {
    var roots := Roots(s);
    var less := RootsBut(s, i);
    DeleteDown(g, s, s1, i);
    PassZero(g, s1, s2, s1.l1At, less, 0);
    forall y, k: nat | 0 < y < |s.snaps| ensures Look(g, s2.d, less[y], k) == Look(g, s.d, less[y], k) {
      assert RootPassed(g, s1, s2, less[y]);
      assert RootPassed(g, s, s1, less[y]);
    }
  }

  lemma DeleteDown(g: Geometry, s: Img, s1: Img, i: nat)
    requires Consistent(g, s) && i < |s.snaps|
    requires Passed(s, s1, s.snaps[i].l1, L1At(s.d, s.snaps[i].l1, s.snaps[i].l1Size), -1)
    ensures Sound(g, s1, RootsBut(s, i)) && s1.l1 == s.l1 && s1.l1At == s.l1At && RootsBut(s, i)[0] == s.l1
    ensures s1.snaps == s.snaps
    ensures forall k: nat :: Look(g, s1.d, s1.l1, k) == Look(g, s.d, s.l1, k)
    ensures forall y :: 0 < y < |s.snaps| ==> RootPassed(g, s, s1, RootsBut(s, i)[y])
  {
    hide RootPassed, L1At, Look, Exact, RootsOK, RootExact, PathRefs, Passed;
    var roots, less := Roots(s), RootsBut(s, i);
    assert s.snaps[i].l1 != s.l1At;
    PassedElse(s, s1, s.snaps[i].l1, L1At(s.d, s.snaps[i].l1, s.snaps[i].l1Size), -1);
    PassDown(g, s, s1, s.snaps[i].l1, roots, i + 1);
    forall y | 0 <= y < |less| ensures RootPassed(g, s, s1, less[y]) {
      assert less[y] == roots[if y < i + 1 then y else y + 1];
    }
    assert less[0] == s.l1;
    PassedLook(g, s, s1, less[0]);
  }

  lemma PassedElse(s: Img, s1: Img, at: nat, l1: seq<Entry>, addend: int)
    requires Passed(s, s1, at, l1, addend) && at != s.l1At
    ensures s1.l1 == s.l1 && s1.l1At == s.l1At && s1.snaps == s.snaps
  {
  }

  lemma PassedLook(g: Geometry, s: Img, s1: Img, m: seq<Entry>)
    requires RootPassed(g, s, s1, m)
    ensures forall k: nat :: Look(g, s1.d, m, k) == Look(g, s.d, m, k)
  {
  }

  /** The run of snapshot i is freed and its entry dropped. */
  function DropSnap(s: Img, i: nat, cnt: map<nat, nat>): Img
    requires i < |s.snaps|
  {
    s.(cnt := cnt, snaps := Without(s.snaps, i))
  }

  lemma DropSnapRefs(g: Geometry, s: Img, i: nat, c: nat)
    requires i < |s.snaps|
    ensures SnapRunRefs(g, s.snaps, c)
      == SnapRunRefs(g, Without(s.snaps, i), c) + B(InRun(s.snaps[i].l1, L1Clusters(g, s.snaps[i].l1Size), c))
  {
    var w := SnapRunWeights(g, s.snaps, c);
    assert SnapRunWeights(g, Without(s.snaps, i), c) == w[..i] + w[i + 1..];
    SumRemove(w, i);
  }

  lemma SnapOwned(g: Geometry, s: Img, i: nat)
    requires OwnShape(g, s) && i < |s.snaps|
    ensures forall c: nat :: InRun(s.snaps[i].l1, L1Clusters(g, s.snaps[i].l1Size), c) ==>
      OwnRefs(g, s, c) > 0 && c !in s.meta && c in s.d && !s.d[c].Table? && !s.d[c].Data? && c != 0
  {
    var sn := s.snaps[i];
    assert StoredRun(g, s.d, sn.l1, sn.l1Size);
    forall c: nat | InRun(sn.l1, L1Clusters(g, sn.l1Size), c)
      ensures OwnRefs(g, s, c) > 0 && c !in s.meta && c in s.d && !s.d[c].Table? && !s.d[c].Data? && c != 0
    {
      SumMember(SnapRunWeights(g, s.snaps, c), i);
    }
  }

  lemma DropSnapAll(g: Geometry, s: Img, i: nat, cnt: map<nat, nat>, cache: L2Cache)
    requires OwnShape(g, s) && i < |s.snaps| && Freed(s.cnt, cnt, s.snaps[i].l1, L1Clusters(g, s.snaps[i].l1Size))
    requires Coherent(s.d, s.cnt, cache) && Bounded(s)
    ensures OwnMoved(g, s, DropSnap(s, i, cnt)) && Coherent(s.d, cnt, cache) && Bounded(DropSnap(s, i, cnt))
  {
    hide InRun, L1Clusters, OwnShape, SnapRunRefs;
    var s' := DropSnap(s, i, cnt);
    DropSnapShape(g, s, i, cnt);
    SnapOwned(g, s, i);
    forall c: nat
      ensures CountOf(cnt, c) + OwnRefs(g, s, c) == CountOf(s.cnt, c) + OwnRefs(g, s', c)
      ensures CountOf(cnt, c) <= MAX_COUNT
    {
      DropSnapRefs(g, s, i, c);
    }
    CoherentMoved(g, s, s', cache);
  }

  lemma DropSnapShape(g: Geometry, s: Img, i: nat, cnt: map<nat, nat>)
    requires OwnShape(g, s) && i < |s.snaps|
    ensures OwnShape(g, DropSnap(s, i, cnt))
  {
    var less := Without(s.snaps, i);
    assert forall j :: 0 <= j < |less| ==> less[j] == s.snaps[if j < i then j else j + 1];
  }

  lemma DropSnapRoots(s: Img, s2: Img, i: nat, cnt: map<nat, nat>)
    requires i < |s.snaps| && s2.snaps == s.snaps
    requires forall j :: 0 <= j < |s.snaps| && j != i ==> SnapRoots(s2.d, s.snaps)[j] == SnapRoots(s.d, s.snaps)[j]
    ensures RootsBut(s, i)[0 := s2.l1] == Roots(DropSnap(s2, i, cnt))
    ensures forall y :: 0 < y < |s.snaps| ==> RootsBut(s, i)[y] == SnapRoots(s.d, s.snaps)[if y <= i then y - 1 else y]
  {
    hide L1At, SnapRoots;
    var before, after := RootsBut(s, i)[0 := s2.l1], Roots(DropSnap(s2, i, cnt));
    DropSnapRootAt(s2.d, s.snaps, i);
    assert |before| == |after|;
    forall y | 0 <= y < |before| ensures before[y] == after[y] {
      if y > 0 {
        var j := if y - 1 < i then y - 1 else y;
        assert before[y] == SnapRoots(s.d, s.snaps)[j];
        assert after[y] == SnapRoots(s2.d, s.snaps)[j];
      }
    }
  }

  lemma DropSnapRootAt(d: Disk, snaps: seq<Snapshot>, i: nat)
    requires i < |snaps|
    ensures forall y ::
      0 <= y < |snaps| - 1 ==> SnapRoots(d, Without(snaps, i))[y] == SnapRoots(d, snaps)[if y < i then y else y + 1]
  {
    hide L1At;
  }

  /** Passes leave the tables of the other snapshots as they are stored. */
  lemma DeleteKeepsRoots(g: Geometry, s: Img, s1: Img, s2: Img, i: nat, l1: seq<Entry>)
    requires OwnShape(g, s) && i < |s.snaps| && Passed(s, s1, s.snaps[i].l1, l1, -1)
    requires Passed(s1, s2, s1.l1At, s1.l1, 0)
    ensures OwnShape(g, s1) && OwnShape(g, s2)
    ensures forall j :: 0 <= j < |s.snaps| && j != i ==> SnapRoots(s2.d, s.snaps)[j] == SnapRoots(s.d, s.snaps)[j]
  {
    assert s.snaps[i].l1 != s.l1At;
    PassedOwn(g, s, s1, s.snaps[i].l1, l1, -1);
    PassKeepsSnapRoots(g, s1, s2, 0);
    forall j | 0 <= j < |s.snaps| && j != i ensures SnapRoots(s2.d, s.snaps)[j] == SnapRoots(s.d, s.snaps)[j] {
      assert s.snaps[j].l1 != s.snaps[i].l1;
      assert SnapRoots(s2.d, s.snaps)[j] == SnapRoots(s1.d, s.snaps)[j];
    }
  }

  lemma DeleteSnaps(g: Geometry, s: Img, s2: Img, i: nat, cnt: map<nat, nat>)
    requires i < |s.snaps| && s2.snaps == s.snaps && SnapsPlain(s.d, s.snaps)
    requires forall j :: 0 <= j < |s.snaps| && j != i ==> SnapRoots(s2.d, s.snaps)[j] == SnapRoots(s.d, s.snaps)[j]
    requires forall y, k: nat ::
      0 < y < |s.snaps| ==> Look(g, s2.d, RootsBut(s, i)[y], k) == Look(g, s.d, RootsBut(s, i)[y], k)
    ensures var s3 := DropSnap(s2, i, cnt);
      && SnapsPlain(s3.d, s3.snaps)
      && forall j, k: nat :: 0 <= j < |s3.snaps| ==>
        SnapLook(g, s3, j, k) == SnapLook(g, s, if j < i then j else j + 1, k)
  {
    var s3 := DropSnap(s2, i, cnt);
    DropSnapRoots(s, s2, i, cnt);
    forall j | 0 <= j < |s3.snaps|
      ensures Plain(L1At(s3.d, s3.snaps[j].l1, s3.snaps[j].l1Size))
      ensures forall k: nat :: SnapLook(g, s3, j, k) == SnapLook(g, s, if j < i then j else j + 1, k)
    {
      var h := if j < i then j else j + 1;
      assert s3.snaps[j] == s.snaps[h];
      assert RootsBut(s, i)[j + 1] == SnapRoots(s.d, s.snaps)[h];
      assert SnapRoots(s2.d, s.snaps)[h] == SnapRoots(s.d, s.snaps)[h];
    }
  }

  lemma DeleteStep(g: Geometry, s: Img, s1: Img, s2: Img, i: nat, cnt: map<nat, nat>)
    requires Consistent(g, s) && i < |s.snaps|
    requires Passed(s, s1, s.snaps[i].l1, L1At(s.d, s.snaps[i].l1, s.snaps[i].l1Size), -1)
    requires Passed(s1, s2, s1.l1At, s1.l1, 0) && OwnMoved(g, s2, DropSnap(s2, i, cnt))
    ensures Consistent(g, DropSnap(s2, i, cnt)) && Deleted(g, s, DropSnap(s2, i, cnt), i)
  {
    hide PathRefs, RootShape, OwnMoved, Exact;
    var s3 := DropSnap(s2, i, cnt);
    var but := RootsBut(s, i);
    var roots := but[0 := s2.l1];
    DeletePasses(g, s, s1, s2, i);
    DeleteKeepsRoots(g, s, s1, s2, i, L1At(s.d, s.snaps[i].l1, s.snaps[i].l1Size));
    OwnMovedKeeps(g, s2, s3, roots);
    DropSnapRoots(s, s2, i, cnt);
    assert roots[0] == s3.l1;
    DeleteSnaps(g, s, s2, i, cnt);
  }

  lemma DeletedThen(g: Geometry, s: Img, s3: Img, s': Img, i: nat)
    requires i < |s.snaps| && Deleted(g, s, s3, i) && SameActiveDisk(g, s3, s') && SameSnapDisks(g, s3, s')
    requires s'.l1 == s3.l1
    ensures Deleted(g, s, s', i)
  {
    forall j, k: nat | 0 <= j < |s'.snaps|
      ensures SnapLook(g, s', j, k) == SnapLook(g, s, if j < i then j else j + 1, k)
    {
      assert SnapLook(g, s', j, k) == SnapLook(g, s3, j, k);
    }
  }
}

/**
 Copy on write at the two levels of the guest-to-host map: giving the active L1 table its own
 L2 table, and giving an active L2 table its own data cluster. Each step keeps every other root.
 */
module Qcow2Relink {
  import opened Sums
  import opened Qcow2Format
  import opened Qcow2State

  /** Clusters in use keep their content, except the listed ones and refcount metadata. */
  predicate Kept(s: Img, d': Disk, except: set<nat>) {
    match s
    case Img(d, cnt, meta, _, _, _, _, _, _) =>
      forall c :: c in d && CountOf(cnt, c) > 0 && c !in meta && c !in except ==> c in d' && d'[c] == d[c]
  }

  /** One reference moves from cluster `from` (0 for none) to the unused cluster `to`, and the refcount
      metadata may move as well. */
  ghost predicate Moved(s: Img, s': Img, from: nat, to: nat) {
    match s'
    case Img(d', cnt', meta', _, _, _, _, _, _) =>
      && CountOf(s.cnt, to) == 0 && to !in s.meta && to !in meta'
      && (forall c: nat ::
            CountOf(cnt', c) + B(c in s.meta) + B(c != 0 && c == from)
            == CountOf(s.cnt, c) + B(c in meta') + B(c == to))
      && (forall c :: c in meta' ==> c in d' && d'[c].Refcounting())
  }

  /** Nothing else of the image changes. */
  predicate SameElse(s: Img, s': Img) {
    s'.l1At == s.l1At && s'.snaps == s.snaps && s'.snapAt
      == s.snapAt && s'.snapLen == s.snapLen && s'.leaked == s.leaked
  }

  /** Counts of clusters in use change only for `from`. */
  lemma CountKept(g: Geometry, s: Img, s': Img, roots: seq<seq<Entry>>, from: nat, to: nat, r: nat, c: nat)
    requires Sound(g, s, roots) && Moved(s, s', from, to) && r < |roots| && PathRefs(s.d, roots[r], c) > 0
    requires c in s'.d && !s'.d[c].Refcounting()
    ensures c != to && CountOf(s'.cnt, c) + B(c == from) == CountOf(s.cnt, c)
  {
    ReachedIsCounted(g, s, roots, r, c);
  }

  /** The clusters a root reaches, apart from the listed ones, keep their content. */
  lemma ReachedKept(g: Geometry, s: Img, d': Disk, roots: seq<seq<Entry>>, except: set<nat>, r: nat)
    requires Sound(g, s, roots) && Kept(s, d', except) && r < |roots|
    requires forall c :: c in except ==> PathRefs(s.d, roots[r], c) == 0
    ensures forall c: nat :: PathRefs(s.d, roots[r], c) > 0 && c in s.d ==> c in d' && d'[c] == s.d[c]
  {
    forall c: nat | PathRefs(s.d, roots[r], c) > 0 && c in s.d ensures c in d' && d'[c] == s.d[c] {
      ReachedIsCounted(g, s, roots, r, c);
    }
  }

  /** Along one entry of a root whose clusters keep their content, copied flags stay safe. */
  lemma FlagsKept(g: Geometry, s: Img, s': Img, roots: seq<seq<Entry>>, from: nat, to: nat, r: nat, i: nat)
    requires Sound(g, s, roots) && Moved(s, s', from, to) && r < |roots| && i < |roots[r]|
    requires from != 0 ==> CountOf(s.cnt, from) >= 2
    requires EntryShape(g, s'.d, roots[r][i]) && roots[r][i].cluster != 0
    requires TableAt(s'.d, roots[r][i].cluster) == TableAt(s.d, roots[r][i].cluster)
    ensures FlagSafe(s'.cnt, roots[r][i]) && TableSafe(s'.cnt, TableAt(s'.d, roots[r][i].cluster))
  {
    var l1 := roots[r];
    assert RootOK(g, s.d, s.cnt, l1);
    PathLeaf(s.d, l1, i, 0);
    CountKept(g, s, s', roots, from, to, r, l1[i].cluster);
    var t := TableAt(s.d, l1[i].cluster);
    forall j | 0 <= j < |t| ensures FlagSafe(s'.cnt, t[j]) {
      assert LeafShape(g, s'.d, t[j]) && FlagSafe(s.cnt, t[j]);
      if t[j].cluster != 0 {
        PathLeaf(s.d, l1, i, j);
        CountKept(g, s, s', roots, from, to, r, t[j].cluster);
      }
    }
  }

  /** A root reads and counts the same on both disks. */
  ghost predicate PathsKept(g: Geometry, d: Disk, d': Disk, l1: seq<Entry>) {
    && (forall i :: 0 <= i < |l1| && l1[i].cluster != 0 ==> TableAt(d', l1[i].cluster) == TableAt(d, l1[i].cluster))
    && (forall c: nat :: PathRefs(d', l1, c) == PathRefs(d, l1, c))
    && (forall k: nat :: Look(g, d', l1, k) == Look(g, d, l1, k) && EntryOf(g, d', l1, k) == EntryOf(g, d, l1, k))
  }

  /** Other roots survive: their clusters keep content and copied flags stay safe. */
  lemma OtherRootKept(g: Geometry, s: Img, s': Img, roots: seq<seq<Entry>>, from: nat, to: nat, except: set<nat>,
      r: nat)
    requires Sound(g, s, roots) && Moved(s, s', from, to) && Kept(s, s'.d, except) && r < |roots|
    requires from != 0 ==> CountOf(s.cnt, from) >= 2
    requires forall c :: c in except ==> PathRefs(s.d, roots[r], c) == 0
    ensures RootOK(g, s'.d, s'.cnt, roots[r]) && RootInj(s'.d, roots[r])
    ensures PathsKept(g, s.d, s'.d, roots[r])
  {
    var l1 := roots[r];
    ReachedKept(g, s, s'.d, roots, except, r);
    assert RootOK(g, s.d, s.cnt, l1) && RootInj(s.d, l1);
    RootKept(g, s.d, s'.d, l1);
    forall i | 0 <= i < |l1|
      ensures FlagSafe(s'.cnt, l1[i]) && (l1[i].cluster != 0 ==> TableSafe(s'.cnt, TableAt(s'.d, l1[i].cluster)))
    {
      assert EntryShape(g, s'.d, l1[i]);
      if l1[i].cluster != 0 {
        FlagsKept(g, s, s', roots, from, to, r, i);
      }
    }
  }

  lemma L1ClustersPositive(g: Geometry, n: nat)
    requires n > 0
    ensures L1Clusters(g, n) > 0
  {
    var w := g.L2Size();
    assert (n + w - 1) / w >= w / w;
  }

  lemma SnapRunCounted(g: Geometry, s: Img, i: nat, c: nat)
    requires i < |s.snaps| && InRun(s.snaps[i].l1, L1Clusters(g, s.snaps[i].l1Size), c)
    ensures OwnRefs(g, s, c) > 0
  {
    SumMember(SnapRunWeights(g, s.snaps, c), i);
  }

  /** The clusters of one stored L1 table keep their content, its entries' cluster possibly apart. */
  lemma RunKept(g: Geometry, s: Img, d': Disk, roots: seq<seq<Entry>>, except: set<nat>, at: nat, n: nat)
    requires Sound(g, s, roots) && Kept(s, d', except) && StoredRun(g, s.d, at, n)
    requires forall k: nat :: InRun(at, L1Clusters(g, n), k) ==> OwnRefs(g, s, k) > 0
    requires forall c :: c in except ==> c in s.d && (s.d[c].Table? || s.d[c].Data? || c == s.l1At)
    ensures forall k :: at < k < at + L1Clusters(g, n) ==> k in d' && d'[k] == L1Tail(at)
    ensures at !in except ==> StoredRun(g, d', at, n) && d'[at] == s.d[at]
  {
    assert InRun(at, L1Clusters(g, n), at) by { L1ClustersPositive(g, n); }
    forall k: nat | at <= k < at + L1Clusters(g, n) && k !in except ensures k in d' && k in s.d && d'[k] == s.d[k] {
      assert InRun(at, L1Clusters(g, n), k);
      assert CountOf(s.cnt, k) > 0;
    }
    assert StoredL1(g, s.d, s.l1At, s.l1);
  }

  lemma SnapsKept(g: Geometry, s: Img, d': Disk, roots: seq<seq<Entry>>, except: set<nat>)
    requires Sound(g, s, roots) && Kept(s, d', except)
    requires forall c :: c in except ==> c in s.d && (s.d[c].Table? || s.d[c].Data? || c == s.l1At)
    ensures StoredSnaps(g, d', s.snaps, s.l1At) && SnapRoots(d', s.snaps) == SnapRoots(s.d, s.snaps)
  {
    forall i | 0 <= i < |s.snaps|
      ensures StoredRun(g, d', s.snaps[i].l1, s.snaps[i].l1Size) && d'[s.snaps[i].l1] == s.d[s.snaps[i].l1]
    {
      var at, n := s.snaps[i].l1, s.snaps[i].l1Size;
      assert StoredRun(g, s.d, at, n) && at != s.l1At;
      forall k: nat | InRun(at, L1Clusters(g, n), k) ensures OwnRefs(g, s, k) > 0 {
        SnapRunCounted(g, s, i, k);
      }
      RunKept(g, s, d', roots, except, at, n);
    }
  }

  lemma LeakedKept(g: Geometry, s: Img, d': Disk, roots: seq<seq<Entry>>, except: set<nat>)
    requires Sound(g, s, roots) && Kept(s, d', except)
    ensures forall c :: c in s.leaked && c !in except ==> c in d' && (d'[c].L1Head? || d'[c].L1Tail?)
  {
    forall c | c in s.leaked && c !in except ensures c in d' && (d'[c].L1Head? || d'[c].L1Tail?) {
      assert CountOf(s.cnt, c) > 0;
    }
  }

  /** Everything held outside the L1 tables' paths survives, the active L1 table's own entries apart. */
  lemma OwnKept(g: Geometry, s: Img, d': Disk, roots: seq<seq<Entry>>, except: set<nat>)
    requires Sound(g, s, roots) && Kept(s, d', except)
    requires forall c :: c in except ==> c in s.d && (s.d[c].Table? || s.d[c].Data? || c == s.l1At)
    ensures 0 in d' && d'[0].Header?
    ensures StoredSnaps(g, d', s.snaps, s.l1At) && SnapRoots(d', s.snaps) == SnapRoots(s.d, s.snaps)
    ensures forall k :: s.snapAt <= k < s.snapAt + s.snapLen ==> k in d' && k in s.d && d'[k] == s.d[k]
    ensures forall k :: s.l1At < k < s.l1At + L1Clusters(g, |s.l1|) ==> k in d' && d'[k] == L1Tail(s.l1At)
    ensures s.l1At !in except ==> StoredL1(g, d', s.l1At, s.l1)
    ensures forall c :: c in s.leaked && c !in except ==> c in d' && (d'[c].L1Head? || d'[c].L1Tail?)
  {
    LeakedKept(g, s, d', roots, except);
    SnapsKept(g, s, d', roots, except);
    RunKept(g, s, d', roots, except, s.l1At, |s.l1|);
    assert CountOf(s.cnt, 0) > 0;
    forall k: nat | s.snapAt <= k < s.snapAt + s.snapLen ensures k in d' && k in s.d && d'[k] == s.d[k] {
      assert InRun(s.snapAt, s.snapLen, k);
      assert CountOf(s.cnt, k) > 0;
    }
  }

  lemma ExactMoved(g: Geometry, s: Img, s': Img, roots: seq<seq<Entry>>, roots': seq<seq<Entry>>, from: nat, to: nat)
    requires Exact(g, s, roots) && Moved(s, s', from, to) && SameElse(s, s') && |s'.l1| == |s.l1|
    requires forall c: nat ::
      RootsRefs(s'.d, roots', c) + B(c != 0 && c == from) == RootsRefs(s.d, roots, c) + B(c == to)
    ensures Exact(g, s', roots')
  {
    forall c: nat ensures CountOf(s'.cnt, c) == OwnRefs(g, s', c) + RootsRefs(s'.d, roots', c) {
      assert CountOf(s.cnt, c) == OwnRefs(g, s, c) + RootsRefs(s.d, roots, c);
    }
  }

  // ---------- A private L2 table ----------

  function EmptyTable(g: Geometry): seq<Entry> { seq(g.L2Size(), _ => NIL) }

  /** The L2 table behind an L1 entry: all empty when there is none. */
  function TableOf(g: Geometry, d: Disk, e: Entry): seq<Entry> {
    if e.cluster == 0 then EmptyTable(g) else TableAt(d, e.cluster)
  }

  /** Active L1 entry i, which was empty or shared, now points to a private copy of its L2 table. */
  ghost predicate L2Relinked(g: Geometry, s: Img, s': Img, i: nat, to: nat) {
    && i < |s.l1| && !s.l1[i].copied
    && s'.l1 == s.l1[i := Entry(to, true)]
    && SameElse(s, s') && Moved(s, s', s.l1[i].cluster, to) && Kept(s, s'.d, {s.l1At})
    && s.l1At in s.d && s.d[s.l1At].L1Head? && i < |s.d[s.l1At].entries|
    && s.l1At in s'.d && s'.d[s.l1At] == L1Head(s.d[s.l1At].entries[i := Entry(to, true)])
    && to in s'.d && s'.d[to] == Table(TableOf(g, s.d, s.l1[i]))
  }

  lemma {:induction false} EmptyTableRefs(n: nat, c: nat)
    ensures L2Refs(seq(n, _ => NIL), c) == 0
  {
    var t: seq<Entry> := seq(n, _ => NIL);
    if L2Refs(t, c) > 0 {
      var j := SumWitness(Hits(t, c));
    }
  }

  /** An unflagged entry of an exact root is empty or shared. */
  lemma SharedOrEmpty(g: Geometry, s: Img, roots: seq<seq<Entry>>, e: Entry)
    requires Sound(g, s, roots) && |roots| > 0 && FlagExact(s.cnt, e) && !e.copied
    requires e.cluster != 0 ==> PathRefs(s.d, roots[0], e.cluster) > 0
    ensures e.cluster != 0 ==> CountOf(s.cnt, e.cluster) >= 2
  {
    if e.cluster != 0 {
      RootsMember(s.d, roots, 0, e.cluster);
    }
  }

  /** A cluster counted once by an exact root: which entry of which table is unique. */
  lemma LeafIsNot(d: Disk, l1: seq<Entry>, i: nat, i': nat, j: nat, from: nat)
    requires RootInj(d, l1) && i < |l1| && i' < |l1| && l1[i].cluster == from && from != 0
    requires l1[i'].cluster != 0
    ensures i != i' ==> l1[i'].cluster != from
    ensures j < |TableAt(d, l1[i'].cluster)| ==> TableAt(d, l1[i'].cluster)[j].cluster != from
  {
    assert PathRefs(d, l1, from) <= 1;
    var t := TableAt(d, l1[i'].cluster);
    if j < |t| {
      L2RefsMember(t, j, from);
    }
    PathMember(d, l1, i, from);
    if i != i' {
      PathPair(d, l1, i, i', from);
    }
  }

  lemma L2RelinkRefs(g: Geometry, s: Img, s': Img, i: nat, to: nat, c: nat)
    requires L2Relinked(g, s, s', i, to) && to != 0
    requires s.l1[i].cluster != 0 ==> TableAt(s'.d, s.l1[i].cluster) == TableAt(s.d, s.l1[i].cluster)
    requires PathRefs(s'.d, s.l1, c) == PathRefs(s.d, s.l1, c)
    ensures PathRefs(s'.d, s'.l1, c) + B(c != 0 && c == s.l1[i].cluster) == PathRefs(s.d, s.l1, c) + B(c == to)
  {
    PathL1Update(s'.d, s.l1, i, Entry(to, true), c);
    if s.l1[i].cluster == 0 {
      EmptyTableRefs(g.L2Size(), c);
    }
  }

  /** Exact flags on reached clusters other than `from` stay exact. */
  lemma FlagExactKept(g: Geometry, s: Img, s': Img, roots: seq<seq<Entry>>, from: nat, to: nat, e: Entry)
    requires Sound(g, s, roots) && |roots| > 0 && Moved(s, s', from, to)
    requires e.cluster != 0 ==> PathRefs(s.d, roots[0], e.cluster) > 0 && e.cluster != from
    requires e.cluster != 0 ==> e.cluster in s'.d && !s'.d[e.cluster].Refcounting()
    requires FlagExact(s.cnt, e)
    ensures FlagExact(s'.cnt, e)
  {
    if e.cluster != 0 {
      CountKept(g, s, s', roots, from, to, 0, e.cluster);
    }
  }

  lemma TableExactKept(g: Geometry, s: Img, s': Img, roots: seq<seq<Entry>>, from: nat, to: nat, i: nat)
    requires Sound(g, s, roots) && |roots| > 0 && Moved(s, s', from, to)
    requires i < |roots[0]| && roots[0][i].cluster != 0 && EntryShape(g, s'.d, roots[0][i])
    requires TableAt(s'.d, roots[0][i].cluster) == TableAt(s.d, roots[0][i].cluster)
    requires TableExact(s.cnt, TableAt(s.d, roots[0][i].cluster))
    requires forall j ::
      0 <= j < |TableAt(s.d, roots[0][i].cluster)| && from != 0 ==> TableAt(s.d, roots[0][i].cluster)[j].cluster != from
    ensures TableExact(s'.cnt, TableAt(s.d, roots[0][i].cluster))
  {
    var t := TableAt(s.d, roots[0][i].cluster);
    forall j | 0 <= j < |t| ensures FlagExact(s'.cnt, t[j]) {
      assert LeafShape(g, s'.d, t[j]) && FlagExact(s.cnt, t[j]);
      PathLeaf(s.d, roots[0], i, j);
      FlagExactKept(g, s, s', roots, from, to, t[j]);
    }
  }

  lemma FreshCount(g: Geometry, s: Img, s': Img, roots: seq<seq<Entry>>, i: nat, to: nat)
    requires Sound(g, s, roots) && |roots| > 0 && i < |roots[0]| && Moved(s, s', roots[0][i].cluster, to)
    requires to != 0
    ensures CountOf(s'.cnt, to) == 1
  {
    if roots[0][i].cluster == to {
      PathLeaf(s.d, roots[0], i, 0);
      ReachedIsCounted(g, s, roots, 0, to);
    }
  }

  /** The active tables stay well shaped and exactly flagged. */
  lemma L2RelinkExact(g: Geometry, s: Img, s': Img, roots: seq<seq<Entry>>, i: nat, to: nat, h: nat)
    requires |roots| > 0 && roots[0] == s.l1 && Sound(g, s, roots)
    requires RootExact(s.d, s.cnt, s.l1) && L2Relinked(g, s, s', i, to)
    requires RootShape(g, s'.d, s.l1) && h < |s.l1| && to != 0
    requires s.l1[h].cluster != 0 ==> TableAt(s'.d, s.l1[h].cluster) == TableAt(s.d, s.l1[h].cluster)
    ensures EntryShape(g, s'.d, s'.l1[h])
    ensures FlagExact(s'.cnt, s'.l1[h])
    ensures (s'.l1[h].cluster != 0 ==> TableExact(s'.cnt, TableAt(s'.d, s'.l1[h].cluster)))
  {
    var l1, from := s.l1, s.l1[i].cluster;
    assert RootInj(s.d, l1) && EntryShape(g, s'.d, l1[h]) && FlagExact(s.cnt, l1[h]);
    if l1[h].cluster != 0 {
      if from != 0 {
        forall j: nat | j < |TableAt(s.d, l1[h].cluster)| ensures TableAt(s.d, l1[h].cluster)[j].cluster != from {
          LeafIsNot(s.d, l1, i, h, j, from);
        }
      }
      TableExactKept(g, s, s', roots, from, to, h);
      if i != h {
        PathLeaf(s.d, l1, h, 0);
        if from != 0 {
          LeafIsNot(s.d, l1, i, h, 0, from);
        }
        FlagExactKept(g, s, s', roots, from, to, l1[h]);
      }
    }
    FreshCount(g, s, s', roots, i, to);
  }

  // ---------- Putting the roots back together ----------

  lemma RelinkRefs(g: Geometry, s: Img, s': Img, roots: seq<seq<Entry>>, l1': seq<Entry>, from: nat, to: nat, c: nat)
    requires |roots| > 0
    requires forall r :: 0 < r < |roots| ==> PathRefs(s'.d, roots[r], c) == PathRefs(s.d, roots[r], c)
    requires PathRefs(s'.d, l1', c) + B(c != 0 && c == from) == PathRefs(s.d, roots[0], c) + B(c == to)
    ensures RootsRefs(s'.d, roots[0 := l1'], c) + B(c != 0 && c == from) == RootsRefs(s.d, roots, c) + B(c == to)
  {
    var w, w' := RootWeights(s.d, roots, c), RootWeights(s'.d, roots[0 := l1'], c);
    assert w' == w[0 := PathRefs(s'.d, l1', c)];
    SumUpdate(w, 0, PathRefs(s'.d, l1', c));
  }

  /** The active root's references move along with the counts. */
  ghost predicate PathMoved(d: Disk, l1: seq<Entry>, d': Disk, l1': seq<Entry>, from: nat, to: nat) {
    forall c: nat :: PathRefs(d', l1', c) + B(c != 0 && c == from) == PathRefs(d, l1, c) + B(c == to)
  }

  lemma RelinkInj(d: Disk, l1: seq<Entry>, d': Disk, l1': seq<Entry>, from: nat, to: nat)
    requires RootInj(d, l1) && PathMoved(d, l1, d', l1', from, to) && PathRefs(d, l1, to) == 0
    ensures RootInj(d', l1')
  {
    forall c: nat ensures PathRefs(d', l1', c) <= 1 {
      assert PathRefs(d, l1, c) <= 1;
    }
  }

  lemma RelinkExact(g: Geometry, s: Img, s': Img, roots: seq<seq<Entry>>, l1': seq<Entry>, from: nat, to: nat)
    requires |roots| > 0 && Exact(g, s, roots) && Moved(s, s', from, to) && SameElse(s, s') && |s'.l1| == |s.l1|
    requires forall r :: 0 < r < |roots| ==> PathsKept(g, s.d, s'.d, roots[r])
    requires PathMoved(s.d, roots[0], s'.d, l1', from, to)
    ensures Exact(g, s', roots[0 := l1'])
  {
    forall c: nat
      ensures RootsRefs(s'.d, roots[0 := l1'], c) + B(c != 0 && c == from) == RootsRefs(s.d, roots, c) + B(c == to)
    {
      RelinkRefs(g, s, s', roots, l1', from, to, c);
    }
    ExactMoved(g, s, s', roots, roots[0 := l1'], from, to);
  }

  /** A root carried over to the new state. */
  ghost predicate RootCarried(g: Geometry, s: Img, s': Img, l1: seq<Entry>) {
    RootOK(g, s'.d, s'.cnt, l1) && RootInj(s'.d, l1) && PathsKept(g, s.d, s'.d, l1)
  }

  lemma RelinkRootsOK(g: Geometry, s: Img, s': Img, roots: seq<seq<Entry>>, l1': seq<Entry>)
    requires |roots| > 0 && RootOK(g, s'.d, s'.cnt, l1') && RootInj(s'.d, l1')
    requires forall r :: 0 < r < |roots| ==> RootCarried(g, s, s', roots[r])
    ensures RootsOK(g, s', roots[0 := l1'])
  {
    var roots' := roots[0 := l1'];
    forall r | 0 <= r < |roots'| ensures RootOK(g, s'.d, s'.cnt, roots'[r]) && RootInj(s'.d, roots'[r]) {
      assert r > 0 ==> RootCarried(g, s, s', roots[r]);
    }
  }

  lemma FreshUnreached(g: Geometry, s: Img, roots: seq<seq<Entry>>, r: nat, to: nat)
    requires Sound(g, s, roots) && r < |roots| && CountOf(s.cnt, to) == 0
    ensures PathRefs(s.d, roots[r], to) == 0
  {
    RootsMember(s.d, roots, r, to);
  }

  lemma RelinkSound(g: Geometry, s: Img, s': Img, roots: seq<seq<Entry>>, l1': seq<Entry>, from: nat, to: nat)
    requires |roots| > 0 && Sound(g, s, roots) && Moved(s, s', from, to) && SameElse(s, s') && |s'.l1| == |s.l1|
    requires OwnShape(g, s') && RootOK(g, s'.d, s'.cnt, l1')
    requires forall r :: 0 < r < |roots| ==> RootCarried(g, s, s', roots[r])
    requires PathMoved(s.d, roots[0], s'.d, l1', from, to)
    ensures Sound(g, s', roots[0 := l1'])
  {
    FreshUnreached(g, s, roots, 0, to);
    RelinkInj(s.d, roots[0], s'.d, l1', from, to);
    RelinkExact(g, s, s', roots, l1', from, to);
    RelinkRootsOK(g, s, s', roots, l1');
  }

  lemma ExactIsSafe(g: Geometry, d: Disk, cnt: map<nat, nat>, l1: seq<Entry>)
    requires RootShape(g, d, l1) && RootExact(d, cnt, l1)
    ensures RootSafe(d, cnt, l1)
  {
    forall i | 0 <= i < |l1|
      ensures FlagSafe(cnt, l1[i]) && (l1[i].cluster != 0 ==> TableSafe(cnt, TableAt(d, l1[i].cluster)))
    {
      assert EntryShape(g, d, l1[i]) && FlagExact(cnt, l1[i]);
      if l1[i].cluster != 0 {
        var t := TableAt(d, l1[i].cluster);
        forall j | 0 <= j < |t| ensures FlagSafe(cnt, t[j]) {
          assert FlagExact(cnt, t[j]) && LeafShape(g, d, t[j]);
        }
      }
    }
  }

  lemma FreshNonzero(g: Geometry, s: Img, roots: seq<seq<Entry>>, to: nat)
    requires Exact(g, s, roots) && CountOf(s.cnt, to) == 0
    ensures to != 0
  {
    assert CountOf(s.cnt, 0) == OwnRefs(g, s, 0) + RootsRefs(s.d, roots, 0);
  }

  /** What relinking promises about the guest disks of the roots other than the active one. */
  ghost predicate OthersSame(g: Geometry, s: Img, s': Img, roots: seq<seq<Entry>>) {
    forall r :: 0 < r < |roots| ==> PathsKept(g, s.d, s'.d, roots[r])
  }

  lemma L2RelinkOwn(g: Geometry, s: Img, s': Img, roots: seq<seq<Entry>>, i: nat, to: nat)
    requires Sound(g, s, roots) && L2Relinked(g, s, s', i, to)
    ensures OwnShape(g, s') && SnapRoots(s'.d, s'.snaps) == SnapRoots(s.d, s.snaps)
  {
    hide L1Clusters, Exact, RootsOK, SnapRoots;
    OwnKept(g, s, s'.d, roots, {s.l1At});
    assert StoredRun(g, s.d, s.l1At, |s.l1|);
    assert L1At(s'.d, s.l1At, |s.l1|) == L1At(s.d, s.l1At, |s.l1|)[i := Entry(to, true)];
  }

  lemma L2RelinkLook(g: Geometry, s: Img, s': Img, i: nat, to: nat, k: nat)
    requires L2Relinked(g, s, s', i, to) && to != 0
    requires s.l1[i].cluster != 0 ==> TableAt(s'.d, s.l1[i].cluster) == TableAt(s.d, s.l1[i].cluster)
    ensures EntryOf(g, s'.d, s'.l1, k) == EntryOf(g, s'.d, s.l1, k)
  {
  }

  /** All roots, taken as they were, survive moving a reference away from a shared cluster. */
  lemma RootsSurvive(g: Geometry, s: Img, s': Img, roots: seq<seq<Entry>>, i: nat, to: nat)
    requires |roots| > 0 && roots[0] == s.l1 && Sound(g, s, roots)
    requires RootExact(s.d, s.cnt, s.l1) && L2Relinked(g, s, s', i, to)
    ensures forall r :: 0 <= r < |roots| ==> RootCarried(g, s, s', roots[r])
  {
    if s.l1[i].cluster != 0 {
      PathLeaf(s.d, s.l1, i, 0);
    }
    assert FlagExact(s.cnt, s.l1[i]);
    SharedOrEmpty(g, s, roots, s.l1[i]);
    forall r | 0 <= r < |roots| ensures RootCarried(g, s, s', roots[r]) {
      if PathRefs(s.d, roots[r], s.l1At) > 0 {
        ReachedIsCounted(g, s, roots, r, s.l1At);
      }
      OtherRootKept(g, s, s', roots, s.l1[i].cluster, to, {s.l1At}, r);
    }
  }

  lemma L2RelinkActive(g: Geometry, s: Img, s': Img, roots: seq<seq<Entry>>, i: nat, to: nat)
    requires |roots| > 0 && roots[0] == s.l1 && Sound(g, s, roots) && to != 0
    requires RootExact(s.d, s.cnt, s.l1) && L2Relinked(g, s, s', i, to) && RootCarried(g, s, s', s.l1)
    ensures RootShape(g, s'.d, s'.l1) && RootExact(s'.d, s'.cnt, s'.l1) && RootSafe(s'.d, s'.cnt, s'.l1)
  {
    forall h | 0 <= h < |s'.l1|
      ensures EntryShape(g, s'.d, s'.l1[h])
      ensures FlagExact(s'.cnt, s'.l1[h])
      ensures (s'.l1[h].cluster != 0 ==> TableExact(s'.cnt, TableAt(s'.d, s'.l1[h].cluster)))
    {
      L2RelinkExact(g, s, s', roots, i, to, h);
    }
    ExactIsSafe(g, s'.d, s'.cnt, s'.l1);
  }

  lemma L2RelinkPaths(g: Geometry, s: Img, s': Img, i: nat, to: nat)
    requires L2Relinked(g, s, s', i, to) && to != 0 && PathsKept(g, s.d, s'.d, s.l1)
    ensures PathMoved(s.d, s.l1, s'.d, s'.l1, s.l1[i].cluster, to)
    ensures forall k: nat ::
      Look(g, s'.d, s'.l1, k) == Look(g, s.d, s.l1, k) && EntryOf(g, s'.d, s'.l1, k) == EntryOf(g, s.d, s.l1, k)
  {
    forall c: nat
      ensures PathRefs(s'.d, s'.l1, c) + B(c != 0 && c == s.l1[i].cluster) == PathRefs(s.d, s.l1, c) + B(c == to)
    {
      L2RelinkRefs(g, s, s', i, to, c);
    }
    forall k: nat ensures EntryOf(g, s'.d, s'.l1, k) == EntryOf(g, s'.d, s.l1, k) {
      L2RelinkLook(g, s, s', i, to, k);
    }
  }

  /** Giving an active L1 entry its own L2 table keeps the invariant and every guest disk. */
  lemma L2RelinkKeeps(g: Geometry, s: Img, s': Img, roots: seq<seq<Entry>>, i: nat, to: nat)
    requires |roots| > 0 && roots[0] == s.l1 && Sound(g, s, roots)
    requires RootExact(s.d, s.cnt, s.l1) && L2Relinked(g, s, s', i, to)
    ensures Sound(g, s', roots[0 := s'.l1]) && RootExact(s'.d, s'.cnt, s'.l1)
    ensures SnapRoots(s'.d, s'.snaps) == SnapRoots(s.d, s.snaps)
    ensures forall k: nat ::
      Look(g, s'.d, s'.l1, k) == Look(g, s.d, s.l1, k) && EntryOf(g, s'.d, s'.l1, k) == EntryOf(g, s.d, s.l1, k)
    ensures OthersSame(g, s, s', roots)
  {
    FreshNonzero(g, s, roots, to);
    L2RelinkOwn(g, s, s', roots, i, to);
    RootsSurvive(g, s, s', roots, i, to);
    L2RelinkActive(g, s, s', roots, i, to);
    L2RelinkPaths(g, s, s', i, to);
    RelinkSound(g, s, s', roots, s'.l1, s.l1[i].cluster, to);
  }

  // ---------- A private data cluster ----------

  /** Entry j of the private L2 table behind active L1 entry i, which was empty or shared, now points
      to a private data cluster. */
  ghost predicate LeafRelinked(g: Geometry, s: Img, s': Img, i: nat, j: nat, to: nat, sectors: seq<Sector>) {
    && i < |s.l1| && s.l1[i].cluster != 0 && s.l1[i].copied
    && j < |TableAt(s.d, s.l1[i].cluster)| && !TableAt(s.d, s.l1[i].cluster)[j].copied
    && s'.l1 == s.l1 && SameElse(s, s')
    && Moved(s, s', TableAt(s.d, s.l1[i].cluster)[j].cluster, to) && Kept(s, s'.d, {s.l1[i].cluster})
    && s.l1[i].cluster in s'.d
    && s'.d[s.l1[i].cluster] == Table(TableAt(s.d, s.l1[i].cluster)[j := Entry(to, true)])
    && to in s'.d && s'.d[to] == Data(sectors) && |sectors| == g.cs
  }

  /** A flagged cluster of the active tables is reached by no other root. */
  lemma PrivateCluster(g: Geometry, s: Img, roots: seq<seq<Entry>>, c: nat, r: nat)
    requires Sound(g, s, roots) && 0 < r < |roots|
    requires CountOf(s.cnt, c) == 1 && PathRefs(s.d, roots[0], c) > 0
    ensures PathRefs(s.d, roots[r], c) == 0
  {
    RootsPair(s.d, roots, 0, r, c);
  }

  /** The disk after a leaf relink, with the old L2 table put back. */
  function BeforeLeaf(s: Img, s': Img, i: nat): Img
    requires i < |s.l1|
  {
    s'.(d := s'.d[s.l1[i].cluster := Table(TableAt(s.d, s.l1[i].cluster))])
  }

  lemma LeafRootsSurvive(g: Geometry, s: Img, s': Img, roots: seq<seq<Entry>>, i: nat, j: nat, to: nat,
      sectors: seq<Sector>)
    requires |roots| > 0 && roots[0] == s.l1 && Sound(g, s, roots)
    requires RootExact(s.d, s.cnt, s.l1) && LeafRelinked(g, s, s', i, j, to, sectors)
    ensures forall r :: 0 < r < |roots| ==> RootCarried(g, s, s', roots[r])
    ensures RootCarried(g, s, BeforeLeaf(s, s', i), s.l1)
  {
    var l2 := s.l1[i].cluster;
    var e := TableAt(s.d, l2)[j];
    PathLeaf(s.d, s.l1, i, j);
    assert FlagExact(s.cnt, s.l1[i]) && TableExact(s.cnt, TableAt(s.d, l2));
    SharedOrEmpty(g, s, roots, e);
    forall r | 0 < r < |roots| ensures RootCarried(g, s, s', roots[r]) {
      PrivateCluster(g, s, roots, l2, r);
      OtherRootKept(g, s, s', roots, e.cluster, to, {l2}, r);
    }
    LeafActiveBefore(g, s, s', roots, i, j, to, sectors);
  }

  lemma LeafActiveBefore(g: Geometry, s: Img, s': Img, roots: seq<seq<Entry>>, i: nat, j: nat, to: nat,
      sectors: seq<Sector>)
    requires |roots| > 0 && roots[0] == s.l1 && Sound(g, s, roots) && LeafRelinked(g, s, s', i, j, to, sectors)
    requires var e := TableAt(s.d, s.l1[i].cluster)[j]; e.cluster != 0 ==> CountOf(s.cnt, e.cluster) >= 2
    ensures RootCarried(g, s, BeforeLeaf(s, s', i), s.l1)
  {
    hide OwnShape, Exact;
    var l2 := s.l1[i].cluster;
    assert EntryShape(g, s.d, s.l1[i]);
    var s1 := BeforeLeaf(s, s', i);
    assert Kept(s, s1.d, {});
    assert Moved(s, s1, TableAt(s.d, l2)[j].cluster, to);
    OtherRootKept(g, s, s1, roots, TableAt(s.d, l2)[j].cluster, to, {}, 0);
  }

  /** Only entry i of the active L1 table leads to the table that changed. */
  lemma OnlyEntry(d: Disk, l1: seq<Entry>, i: nat, h: nat)
    requires RootInj(d, l1) && i < |l1| && h < |l1| && i != h && l1[i].cluster != 0
    ensures l1[h].cluster != l1[i].cluster
  {
    assert PathRefs(d, l1, l1[i].cluster) <= 1;
    PathPair(d, l1, i, h, l1[i].cluster);
  }

  lemma LeafPaths(d: Disk, d': Disk, l1: seq<Entry>, i: nat, j: nat, e: Entry, c: nat)
    requires RootInj(d, l1) && i < |l1| && l1[i].cluster != 0
    requires l1[i].cluster in d && d[l1[i].cluster].Table? && j < |d[l1[i].cluster].entries|
    requires d' == d[l1[i].cluster := Table(d[l1[i].cluster].entries[j := e])]
    ensures PathRefs(d', l1, c) + Hit(d[l1[i].cluster].entries[j], c) == PathRefs(d, l1, c) + Hit(e, c)
  {
    var t := d[l1[i].cluster].entries;
    var w, w' := PathWeights(d, l1, c), PathWeights(d', l1, c);
    forall h | 0 <= h < |l1| && h != i ensures w'[h] == w[h] {
      OnlyEntry(d, l1, i, h);
    }
    assert w' == w[i := w'[i]];
    SumUpdate(w, i, w'[i]);
    L2RefsUpdate(t, j, e, c);
  }

  /** Flags other than the relinked one stay exact. */
  lemma LeafFlagKept(g: Geometry, s: Img, s1: Img, roots: seq<seq<Entry>>, i: nat, j: nat, to: nat, h: nat, m: nat)
    requires |roots| > 0 && Sound(g, s, roots) && RootExact(s.d, s.cnt, roots[0])
    requires i < |roots[0]| && roots[0][i].cluster != 0 && j < |TableAt(s.d, roots[0][i].cluster)|
    requires h < |roots[0]| && roots[0][h].cluster != 0 && EntryShape(g, s1.d, roots[0][h])
    requires TableAt(s1.d, roots[0][h].cluster) == TableAt(s.d, roots[0][h].cluster)
    requires Moved(s, s1, TableAt(s.d, roots[0][i].cluster)[j].cluster, to)
    ensures FlagExact(s1.cnt, roots[0][h])
    ensures m < |TableAt(s.d, roots[0][h].cluster)| && (h != i || m != j) ==>
      FlagExact(s1.cnt, TableAt(s.d, roots[0][h].cluster)[m])
  {
    hide PathRefs, OwnShape, Exact, Moved;
    var l1 := roots[0];
    var t, from := TableAt(s.d, l1[h].cluster), TableAt(s.d, l1[i].cluster)[j].cluster;
    assert RootInj(s.d, l1);
    PathLeaf(s.d, l1, h, m);
    if from != 0 {
      LeafElsewhere(s.d, l1, i, j, h, m);
    }
    assert FlagExact(s.cnt, l1[h]);
    FlagExactKept(g, s, s1, roots, from, to, l1[h]);
    if m < |t| && (h != i || m != j) {
      assert FlagExact(s.cnt, t[m]) && LeafShape(g, s1.d, t[m]);
      FlagExactKept(g, s, s1, roots, from, to, t[m]);
    }
  }

  /** After a leaf relink each active entry is well shaped and exactly flagged. */
  lemma LeafRelinkExact(g: Geometry, s: Img, s': Img, roots: seq<seq<Entry>>, i: nat, j: nat, to: nat,
      sectors: seq<Sector>, h: nat)
    requires |roots| > 0 && roots[0] == s.l1 && Sound(g, s, roots) && to != 0
    requires RootExact(s.d, s.cnt, s.l1) && LeafRelinked(g, s, s', i, j, to, sectors)
    requires RootCarried(g, s, BeforeLeaf(s, s', i), s.l1) && h < |s.l1|
    ensures EntryShape(g, s'.d, s'.l1[h])
    ensures FlagExact(s'.cnt, s'.l1[h])
    ensures (s'.l1[h].cluster != 0 ==> TableExact(s'.cnt, TableAt(s'.d, s'.l1[h].cluster)))
  {
    var s1 := BeforeLeaf(s, s', i);
    assert EntryShape(g, s1.d, s.l1[h]);
    if s.l1[h].cluster != 0 {
      assert RootInj(s.d, s.l1);
      LeafTable(g, s, s', i, j, to, sectors, h);
      LeafFreshCount(g, s, s', roots, i, j, to);
      assert Moved(s, s1, TableAt(s.d, s.l1[i].cluster)[j].cluster, to);
      LeafFlagKept(g, s, s1, roots, i, j, to, h, 0);
      var t := TableAt(s'.d, s.l1[h].cluster);
      forall m | 0 <= m < |t| ensures FlagExact(s'.cnt, t[m]) {
        LeafFlagKept(g, s, s1, roots, i, j, to, h, m);
      }
    }
  }

  /** No other entry of an injective root points to what entry (i, j) points to. */
  lemma LeafElsewhere(d: Disk, l1: seq<Entry>, i: nat, j: nat, h: nat, m: nat)
    requires RootInj(d, l1) && i < |l1| && h < |l1| && l1[i].cluster != 0 && l1[h].cluster != 0
    requires j < |TableAt(d, l1[i].cluster)| && TableAt(d, l1[i].cluster)[j].cluster != 0
    ensures l1[h].cluster != TableAt(d, l1[i].cluster)[j].cluster
    ensures m < |TableAt(d, l1[h].cluster)| && (h != i || m != j)
      ==> TableAt(d, l1[h].cluster)[m].cluster != TableAt(d, l1[i].cluster)[j].cluster
  {
    var t := TableAt(d, l1[i].cluster);
    var x := t[j].cluster;
    assert PathRefs(d, l1, x) <= 1;
    L2RefsMember(t, j, x);
    if h != i {
      PathPair(d, l1, i, h, x);
      if m < |TableAt(d, l1[h].cluster)| {
        L2RefsMember(TableAt(d, l1[h].cluster), m, x);
      }
    } else {
      PathMember(d, l1, i, x);
      if m < |t| && m != j {
        L2RefsPair(t, j, m, x);
      }
    }
  }

  lemma LeafFreshCount(g: Geometry, s: Img, s': Img, roots: seq<seq<Entry>>, i: nat, j: nat, to: nat)
    requires |roots| > 0 && Sound(g, s, roots) && to != 0
    requires i < |roots[0]| && roots[0][i].cluster != 0 && j < |TableAt(s.d, roots[0][i].cluster)|
    requires Moved(s, s', TableAt(s.d, roots[0][i].cluster)[j].cluster, to)
    ensures CountOf(s'.cnt, to) == 1
  {
    if TableAt(s.d, roots[0][i].cluster)[j].cluster == to {
      PathLeaf(s.d, roots[0], i, j);
      ReachedIsCounted(g, s, roots, 0, to);
    }
  }

  lemma LeafTable(g: Geometry, s: Img, s': Img, i: nat, j: nat, to: nat, sectors: seq<Sector>, h: nat)
    requires LeafRelinked(g, s, s', i, j, to, sectors) && to != 0 && h < |s.l1| && s.l1[h].cluster != 0
    requires EntryShape(g, BeforeLeaf(s, s', i).d, s.l1[h]) && RootInj(s.d, s.l1)
    requires TableAt(BeforeLeaf(s, s', i).d, s.l1[h].cluster) == TableAt(s.d, s.l1[h].cluster)
    ensures EntryShape(g, s'.d, s.l1[h])
    ensures TableAt(s'.d, s.l1[h].cluster)
         == if h == i then TableAt(s.d, s.l1[h].cluster)[j := Entry(to, true)] else TableAt(s.d, s.l1[h].cluster)
  {
    var d1 := BeforeLeaf(s, s', i).d;
    var t := TableAt(d1, s.l1[h].cluster);
    if h != i {
      OnlyEntry(s.d, s.l1, i, h);
    }
    forall m | 0 <= m < |t| ensures LeafShape(g, s'.d, t[m]) {
      assert LeafShape(g, d1, t[m]);
    }
  }

  lemma LeafOwn(g: Geometry, s: Img, s': Img, roots: seq<seq<Entry>>, i: nat, j: nat, to: nat, sectors: seq<Sector>)
    requires |roots| > 0 && roots[0] == s.l1 && Sound(g, s, roots) && LeafRelinked(g, s, s', i, j, to, sectors)
    ensures OwnShape(g, s') && SnapRoots(s'.d, s'.snaps) == SnapRoots(s.d, s.snaps)
  {
    hide L1Clusters, Exact, SnapRoots;
    assert EntryShape(g, s.d, s.l1[i]);
    OwnKept(g, s, s'.d, roots, {s.l1[i].cluster});
  }

  lemma LeafActive(g: Geometry, s: Img, s': Img, roots: seq<seq<Entry>>, i: nat, j: nat, to: nat, sectors: seq<Sector>)
    requires |roots| > 0 && roots[0] == s.l1 && Sound(g, s, roots) && to != 0
    requires RootExact(s.d, s.cnt, s.l1) && LeafRelinked(g, s, s', i, j, to, sectors)
    requires RootCarried(g, s, BeforeLeaf(s, s', i), s.l1)
    ensures RootShape(g, s'.d, s'.l1) && RootExact(s'.d, s'.cnt, s'.l1) && RootSafe(s'.d, s'.cnt, s'.l1)
  {
    forall h | 0 <= h < |s'.l1|
      ensures EntryShape(g, s'.d, s'.l1[h])
      ensures FlagExact(s'.cnt, s'.l1[h])
      ensures (s'.l1[h].cluster != 0 ==> TableExact(s'.cnt, TableAt(s'.d, s'.l1[h].cluster)))
    {
      LeafRelinkExact(g, s, s', roots, i, j, to, sectors, h);
    }
    ExactIsSafe(g, s'.d, s'.cnt, s'.l1);
  }

  lemma LeafMoved(g: Geometry, s: Img, s': Img, i: nat, j: nat, to: nat, sectors: seq<Sector>)
    requires LeafRelinked(g, s, s', i, j, to, sectors) && to != 0 && RootCarried(g, s, BeforeLeaf(s, s', i), s.l1)
    requires EntryShape(g, s.d, s.l1[i])
    ensures PathMoved(s.d, s.l1, s'.d, s'.l1, TableAt(s.d, s.l1[i].cluster)[j].cluster, to)
  {
    var l2, s1 := s.l1[i].cluster, BeforeLeaf(s, s', i);
    assert s'.d == s1.d[l2 := Table(s1.d[l2].entries[j := Entry(to, true)])];
    forall c: nat
      ensures PathRefs(s'.d, s'.l1, c) + B(c != 0 && c == TableAt(s.d, l2)[j].cluster)
        == PathRefs(s.d, s.l1, c) + B(c == to)
    {
      LeafPaths(s1.d, s'.d, s.l1, i, j, Entry(to, true), c);
      assert PathRefs(s1.d, s.l1, c) == PathRefs(s.d, s.l1, c);
    }
  }

  /** Guest sector k lives in the guest cluster mapped by entry (i, j). */
  predicate Mapped(g: Geometry, i: nat, j: nat, k: nat) { L1Index(g, k) == i && L2Index(g, k) == j }

  lemma LeafLook(g: Geometry, s: Img, s': Img, i: nat, j: nat, to: nat, sectors: seq<Sector>, k: nat)
    requires LeafRelinked(g, s, s', i, j, to, sectors) && to != 0 && RootInj(s.d, s.l1)
    requires RootCarried(g, s, BeforeLeaf(s, s', i), s.l1)
    ensures Mapped(g, i, j, k) ==>
      EntryOf(g, s'.d, s.l1, k) == Entry(to, true) && Look(g, s'.d, s.l1, k) == g.dec(k, sectors[k % g.cs])
    ensures !Mapped(g, i, j, k) ==>
      Look(g, s'.d, s.l1, k) == Look(g, s.d, s.l1, k) && EntryOf(g, s'.d, s.l1, k) == EntryOf(g, s.d, s.l1, k)
  {
    var h, m, s1 := L1Index(g, k), L2Index(g, k), BeforeLeaf(s, s', i);
    assert Look(g, s1.d, s.l1, k) == Look(g, s.d, s.l1, k) && EntryOf(g, s1.d, s.l1, k) == EntryOf(g, s.d, s.l1, k);
    if h < |s.l1| && s.l1[h].cluster != 0 {
      assert EntryShape(g, s1.d, s.l1[h]);
      if h != i {
        OnlyEntry(s.d, s.l1, i, h);
      }
      assert LeafShape(g, s1.d, TableAt(s1.d, s.l1[h].cluster)[m]);
    }
  }

  /** Guest disks after the data cluster of guest cluster (i, j) was replaced: that guest cluster reads as the
      new sectors, every other sector and every other root as before. */
  ghost predicate ClusterWritten(g: Geometry, s: Img, s': Img, i: nat, j: nat, to: nat, sectors: seq<Sector>) {
    && |sectors| == g.cs
    && (forall k: nat :: Mapped(g, i, j, k) ==>
      EntryOf(g, s'.d, s'.l1, k) == Entry(to, true) && Look(g, s'.d, s'.l1, k) == g.dec(k, sectors[k % g.cs]))
    && (forall k: nat :: !Mapped(g, i, j, k) ==>
      Look(g, s'.d, s'.l1, k) == Look(g, s.d, s.l1, k) && EntryOf(g, s'.d, s'.l1, k) == EntryOf(g, s.d, s.l1, k))
  }

  lemma LeafWritten(g: Geometry, s: Img, s': Img, i: nat, j: nat, to: nat, sectors: seq<Sector>)
    requires LeafRelinked(g, s, s', i, j, to, sectors) && to != 0 && RootInj(s.d, s.l1)
    requires RootCarried(g, s, BeforeLeaf(s, s', i), s.l1)
    ensures ClusterWritten(g, s, s', i, j, to, sectors)
  {
    forall k: nat
      ensures Mapped(g, i, j, k) ==>
        EntryOf(g, s'.d, s.l1, k) == Entry(to, true) && Look(g, s'.d, s.l1, k) == g.dec(k, sectors[k % g.cs])
      ensures !Mapped(g, i, j, k) ==>
        Look(g, s'.d, s.l1, k) == Look(g, s.d, s.l1, k) && EntryOf(g, s'.d, s.l1, k) == EntryOf(g, s.d, s.l1, k)
    {
      LeafLook(g, s, s', i, j, to, sectors, k);
    }
  }

  lemma UpdateSame<T>(s: seq<T>)
    requires |s| > 0
    ensures s[0 := s[0]] == s
  {
  }

  lemma LeafRelinkSound(g: Geometry, s: Img, s': Img, roots: seq<seq<Entry>>, i: nat, j: nat, to: nat,
      sectors: seq<Sector>)
    requires |roots| > 0 && roots[0] == s.l1 && Sound(g, s, roots) && to != 0
    requires LeafRelinked(g, s, s', i, j, to, sectors) && OwnShape(g, s')
    requires RootCarried(g, s, BeforeLeaf(s, s', i), s.l1) && RootOK(g, s'.d, s'.cnt, s'.l1)
    requires forall r :: 0 < r < |roots| ==> RootCarried(g, s, s', roots[r])
    ensures Sound(g, s', roots)
  {
    assert RootOK(g, s.d, s.cnt, roots[0]) && EntryShape(g, s.d, s.l1[i]);
    LeafMoved(g, s, s', i, j, to, sectors);
    RelinkSound(g, s, s', roots, s'.l1, TableAt(s.d, s.l1[i].cluster)[j].cluster, to);
    UpdateSame(roots);
  }

  /** Giving a guest cluster its own data cluster keeps the invariant and changes that guest cluster alone. */
  lemma LeafRelinkKeeps(g: Geometry, s: Img, s': Img, roots: seq<seq<Entry>>, i: nat, j: nat, to: nat,
      sectors: seq<Sector>)
    requires |roots| > 0 && roots[0] == s.l1 && Sound(g, s, roots)
    requires RootExact(s.d, s.cnt, s.l1) && LeafRelinked(g, s, s', i, j, to, sectors)
    ensures Sound(g, s', roots) && RootExact(s'.d, s'.cnt, s'.l1)
    ensures SnapRoots(s'.d, s'.snaps) == SnapRoots(s.d, s.snaps)
    ensures ClusterWritten(g, s, s', i, j, to, sectors) && OthersSame(g, s, s', roots)
  {
    FreshNonzero(g, s, roots, to);
    LeafOwn(g, s, s', roots, i, j, to, sectors);
    LeafRootsSurvive(g, s, s', roots, i, j, to, sectors);
    LeafActive(g, s, s', roots, i, j, to, sectors);
    LeafRelinkSound(g, s, s', roots, i, j, to, sectors);
    assert RootInj(s.d, roots[0]);
    LeafWritten(g, s, s', i, j, to, sectors);
  }
}

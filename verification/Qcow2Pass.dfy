/**
 update_snapshot_refcount as one step: every count along the paths of an L1 table changes by the same
 amount, and the copied flags along those paths are recomputed. Adding a pass over a table that is
 already counted, dropping one, and merely refreshing the flags each keep the invariant.
 */
module Qcow2Pass {
  import opened Qcow2Format
  import opened Qcow2State
  import opened Qcow2Relink

  function Reflag(cnt: map<nat, nat>, e: Entry): Entry {
    Entry(e.cluster, e.cluster != 0 && CountOf(cnt, e.cluster) == 1)
  }

  function ReflagAll(cnt: map<nat, nat>, t: seq<Entry>): (r: seq<Entry>)
    ensures |r| == |t|
  {
    seq(|t|, j requires 0 <= j < |t| => Reflag(cnt, t[j]))
  }

  /** n references gained (addend 1), lost (addend -1) or merely visited (addend 0). */
  function Times(addend: int, n: int): int {
    if addend == 0 then 0 else if addend > 0 then n else -n
  }

  /** The effect of a pass over the table `l1` stored at cluster `at`. */
  ghost predicate Passed(s: Img, s': Img, at: nat, l1: seq<Entry>, addend: int) {
    && s'.d.Keys == s.d.Keys
    && (forall c: nat :: CountOf(s'.cnt, c) == CountOf(s.cnt, c) + Times(addend, PathRefs(s.d, l1, c)))
    && at in s.d && s.d[at].L1Head? && |l1| <= |s.d[at].entries|
    && s'.d[at] == L1Head(ReflagAll(s'.cnt, l1) + s.d[at].entries[|l1|..])
    && (forall c :: c in s.d && c != at ==>
          s'.d[c] == if s.d[c].Table? && PathRefs(s.d, l1, c) > 0 then Table(ReflagAll(s'.cnt, s.d[c].entries))
            else s.d[c])
    && s' == s.(d := s'.d, cnt := s'.cnt, l1 := if at == s.l1At then ReflagAll(s'.cnt, l1) else s.l1)
  }

  // ---------- Changing flags alone ----------

  predicate SameTable(t: seq<Entry>, t': seq<Entry>) {
    SameClusters(t, t') && forall j :: 0 <= j < |t| && t[j].cluster == 0 ==> t'[j] == t[j]
  }

  predicate SameButFlags(x: Content, y: Content) {
    || x == y
    || (x.Table? && y.Table? && SameTable(x.entries, y.entries))
    || (x.L1Head? && y.L1Head?)
  }

  predicate FlagsOnly(d: Disk, d': Disk) {
    d'.Keys == d.Keys && forall c :: c in d ==> SameButFlags(d[c], d'[c])
  }

  lemma TableSame(g: Geometry, d: Disk, d': Disk, e: Entry, e': Entry)
    requires EntryShape(g, d, e) && FlagsOnly(d, d') && e'.cluster == e.cluster && (e.cluster == 0 ==> e' == e)
    ensures EntryShape(g, d', e') && SameTable(TableAt(d, e.cluster), TableAt(d', e.cluster))
  {
    if e.cluster != 0 {
      var t, t' := TableAt(d, e.cluster), TableAt(d', e.cluster);
      forall j | 0 <= j < |t| ensures LeafShape(g, d', t'[j]) {
        assert LeafShape(g, d, t[j]);
        assert t[j].cluster != 0 ==> SameButFlags(d[t[j].cluster], d'[t[j].cluster]);
      }
    } else if 0 in d {
      assert SameButFlags(d[0], d'[0]);
    }
  }

  /** A root whose tables change in flags alone keeps its paths and its guest disk. */
  lemma FlagsKeepRoot(g: Geometry, d: Disk, d': Disk, l1: seq<Entry>, l1': seq<Entry>)
    requires RootShape(g, d, l1) && FlagsOnly(d, d') && SameTable(l1, l1')
    ensures RootShape(g, d', l1')
    ensures forall c: nat :: PathRefs(d', l1', c) == PathRefs(d, l1, c)
    ensures forall k: nat :: Look(g, d', l1', k) == Look(g, d, l1, k)
  {
    forall i | 0 <= i < |l1|
      ensures EntryShape(g, d', l1'[i]) && SameTable(TableAt(d, l1[i].cluster), TableAt(d', l1[i].cluster))
    {
      assert EntryShape(g, d, l1[i]);
      TableSame(g, d, d', l1[i], l1'[i]);
    }
    forall c: nat ensures PathRefs(d', l1', c) == PathRefs(d, l1, c) {
      forall i | 0 <= i < |l1| ensures EntryRefs(d', l1'[i], c) == EntryRefs(d, l1[i], c) {
        L2RefsSame(TableAt(d, l1[i].cluster), TableAt(d', l1[i].cluster), c);
      }
      PathSame(d', l1', d, l1, c);
    }
    forall k: nat ensures Look(g, d', l1', k) == Look(g, d, l1, k) {
      FlagsKeepLook(g, d, d', l1, l1', k);
    }
  }

  lemma FlagsKeepLook(g: Geometry, d: Disk, d': Disk, l1: seq<Entry>, l1': seq<Entry>, k: nat)
    requires RootShape(g, d, l1) && FlagsOnly(d, d') && SameTable(l1, l1')
    ensures Look(g, d', l1', k) == Look(g, d, l1, k)
  {
    var i, j := L1Index(g, k), L2Index(g, k);
    if i < |l1| && l1[i].cluster != 0 {
      assert EntryShape(g, d, l1[i]);
      TableSame(g, d, d', l1[i], l1'[i]);
      var t := TableAt(d, l1[i].cluster);
      if j < |t| && t[j].cluster != 0 {
        assert LeafShape(g, d, t[j]);
        assert SameButFlags(d[t[j].cluster], d'[t[j].cluster]);
      }
    }
  }

  lemma PassedFlagsOnly(g: Geometry, s: Img, s': Img, at: nat, l1: seq<Entry>, addend: int)
    requires Passed(s, s', at, l1, addend) && RootShape(g, s.d, l1)
    ensures FlagsOnly(s.d, s'.d) && SameTable(l1, ReflagAll(s'.cnt, l1))
  {
    forall c | c in s.d ensures SameButFlags(s.d[c], s'.d[c]) {
      if c != at && s.d[c].Table? && PathRefs(s.d, l1, c) > 0 {
        var t := s.d[c].entries;
        var i, j := PathWitness(g, s.d, l1, c);
        assert EntryShape(g, s.d, l1[i]);
        forall h | 0 <= h < |t| && t[h].cluster == 0 ensures Reflag(s'.cnt, t[h]) == t[h] {
          assert LeafShape(g, s.d, t[h]);
        }
      }
    }
    forall i | 0 <= i < |l1| && l1[i].cluster == 0 ensures Reflag(s'.cnt, l1[i]) == l1[i] {
      assert EntryShape(g, s.d, l1[i]);
    }
  }

  // ---------- Copied flags after a pass ----------

  /** The tables of the table passed over have exact flags. */
  lemma PassedExact(g: Geometry, s: Img, s': Img, at: nat, l1: seq<Entry>, addend: int, m: seq<Entry>)
    requires Passed(s, s', at, l1, addend) && RootShape(g, s.d, l1) && SameClusters(l1, m)
    ensures forall i :: 0 <= i < |m| && m[i].cluster != 0 ==> TableExact(s'.cnt, TableAt(s'.d, m[i].cluster))
    ensures RootExact(s'.d, s'.cnt, ReflagAll(s'.cnt, l1))
  {
    forall i | 0 <= i < |m| && m[i].cluster != 0 ensures TableExact(s'.cnt, TableAt(s'.d, m[i].cluster)) {
      PathLeaf(s.d, l1, i, 0);
      assert EntryShape(g, s.d, l1[i]);
    }
  }

  /** Clusters reached both by the passed table and by `m` are shared. */
  ghost predicate Apart(s: Img, l1: seq<Entry>, m: seq<Entry>) {
    forall c: nat :: PathRefs(s.d, l1, c) > 0 && PathRefs(s.d, m, c) > 0 ==> CountOf(s.cnt, c) >= 2
  }

  lemma ApartTable(g: Geometry, s: Img, s': Img, at: nat, l1: seq<Entry>, addend: int, m: seq<Entry>, i: nat)
    requires Passed(s, s', at, l1, addend) && RootShape(g, s.d, l1) && RootOK(g, s.d, s.cnt, m) && Apart(s, l1, m)
    requires i < |m| && m[i].cluster != 0
    ensures FlagSafe(s'.cnt, m[i]) && TableSafe(s'.cnt, TableAt(s'.d, m[i].cluster))
  {
    PathLeaf(s.d, m, i, 0);
    assert EntryShape(g, s.d, m[i]) && FlagSafe(s.cnt, m[i]);
    var t := TableAt(s.d, m[i].cluster);
    if PathRefs(s.d, l1, m[i].cluster) == 0 {
      forall j | 0 <= j < |t| ensures FlagSafe(s'.cnt, t[j]) {
        assert FlagSafe(s.cnt, t[j]) && LeafShape(g, s.d, t[j]);
        PathLeaf(s.d, m, i, j);
      }
    }
  }

  lemma ApartSafe(g: Geometry, s: Img, s': Img, at: nat, l1: seq<Entry>, addend: int, m: seq<Entry>)
    requires Passed(s, s', at, l1, addend) && RootShape(g, s.d, l1) && RootOK(g, s.d, s.cnt, m) && Apart(s, l1, m)
    ensures RootSafe(s'.d, s'.cnt, m)
  {
    forall i | 0 <= i < |m|
      ensures FlagSafe(s'.cnt, m[i]) && (m[i].cluster != 0 ==> TableSafe(s'.cnt, TableAt(s'.d, m[i].cluster)))
    {
      assert EntryShape(g, s.d, m[i]);
      if m[i].cluster != 0 {
        ApartTable(g, s, s', at, l1, addend, m, i);
      }
    }
  }

  lemma TwinSafe(g: Geometry, s: Img, s': Img, at: nat, l1: seq<Entry>, addend: int, m: seq<Entry>)
    requires Passed(s, s', at, l1, addend) && RootShape(g, s.d, l1) && SameClusters(l1, m) && Plain(m)
    requires RootShape(g, s'.d, m)
    ensures RootSafe(s'.d, s'.cnt, m)
  {
    PassedExact(g, s, s', at, l1, addend, m);
    forall i | 0 <= i < |m| && m[i].cluster != 0 ensures TableSafe(s'.cnt, TableAt(s'.d, m[i].cluster)) {
      assert EntryShape(g, s'.d, m[i]);
      var t := TableAt(s'.d, m[i].cluster);
      assert forall j :: 0 <= j < |t| ==> LeafShape(g, s'.d, t[j]) && FlagExact(s'.cnt, t[j]);
    }
  }

  // ---------- Roots after a pass ----------

  /** A root as it stands after a pass. */
  ghost predicate RootPassed(g: Geometry, s: Img, s': Img, m: seq<Entry>) {
    && RootOK(g, s'.d, s'.cnt, m) && RootInj(s'.d, m)
    && (forall c: nat :: PathRefs(s'.d, m, c) == PathRefs(s.d, m, c))
    && (forall k: nat :: Look(g, s'.d, m, k) == Look(g, s.d, m, k))
  }

  lemma SameTableRefl(t: seq<Entry>)
    ensures SameTable(t, t)
  {
  }

  lemma ApartRoot(g: Geometry, s: Img, s': Img, at: nat, l1: seq<Entry>, addend: int, m: seq<Entry>)
    requires Passed(s, s', at, l1, addend) && RootShape(g, s.d, l1)
    requires RootOK(g, s.d, s.cnt, m) && RootInj(s.d, m) && Apart(s, l1, m)
    ensures RootPassed(g, s, s', m)
  {
    PassedFlagsOnly(g, s, s', at, l1, addend);
    SameTableRefl(m);
    FlagsKeepRoot(g, s.d, s'.d, m, m);
    ApartSafe(g, s, s', at, l1, addend, m);
    assert forall c: nat :: PathRefs(s.d, m, c) <= 1;
  }

  lemma TwinRoot(g: Geometry, s: Img, s': Img, at: nat, l1: seq<Entry>, addend: int, m: seq<Entry>)
    requires Passed(s, s', at, l1, addend) && RootShape(g, s.d, l1)
    requires RootShape(g, s.d, m) && RootInj(s.d, m) && SameClusters(l1, m) && Plain(m)
    ensures RootPassed(g, s, s', m)
  {
    PassedFlagsOnly(g, s, s', at, l1, addend);
    SameTableRefl(m);
    FlagsKeepRoot(g, s.d, s'.d, m, m);
    TwinSafe(g, s, s', at, l1, addend, m);
    assert forall c: nat :: PathRefs(s.d, m, c) <= 1;
  }

  /** The passed table itself, with its new flags. */
  lemma SelfRoot(g: Geometry, s: Img, s': Img, at: nat, l1: seq<Entry>, addend: int)
    requires Passed(s, s', at, l1, addend) && RootShape(g, s.d, l1) && RootInj(s.d, l1)
    ensures var m := ReflagAll(s'.cnt, l1);
      && RootOK(g, s'.d, s'.cnt, m) && RootInj(s'.d, m) && RootExact(s'.d, s'.cnt, m)
      && (forall c: nat :: PathRefs(s'.d, m, c) == PathRefs(s.d, l1, c))
      && (forall k: nat :: Look(g, s'.d, m, k) == Look(g, s.d, l1, k))
  {
    var m := ReflagAll(s'.cnt, l1);
    PassedFlagsOnly(g, s, s', at, l1, addend);
    FlagsKeepRoot(g, s.d, s'.d, l1, m);
    PassedExact(g, s, s', at, l1, addend, l1);
    ExactIsSafe(g, s'.d, s'.cnt, m);
    assert forall c: nat :: PathRefs(s.d, l1, c) <= 1;
  }

  // ---------- What the image holds outside the paths ----------

  lemma RunPassed(g: Geometry, s: Img, s': Img, at: nat, l1: seq<Entry>, addend: int, x: nat, n: nat)
    requires Passed(s, s', at, l1, addend) && StoredRun(g, s.d, x, n)
    ensures StoredRun(g, s'.d, x, n)
    ensures x != at ==> L1At(s'.d, x, n) == L1At(s.d, x, n)
  {
  }

  lemma ActivePassed(g: Geometry, s: Img, s': Img, at: nat, l1: seq<Entry>, addend: int)
    requires Passed(s, s', at, l1, addend) && StoredL1(g, s.d, s.l1At, s.l1) && (at == s.l1At ==> |l1| == |s.l1|)
    ensures |s'.l1| == |s.l1| && L1At(s'.d, s'.l1At, |s'.l1|) == s'.l1
  {
    hide PathRefs;
  }

  lemma PassedOwn(g: Geometry, s: Img, s': Img, at: nat, l1: seq<Entry>, addend: int)
    requires Passed(s, s', at, l1, addend) && OwnShape(g, s)
    requires at == s.l1At ==> |l1| == |s.l1|
    ensures OwnShape(g, s')
    ensures forall i :: 0 <= i < |s.snaps| && s.snaps[i].l1 != at ==>
      L1At(s'.d, s.snaps[i].l1, s.snaps[i].l1Size) == L1At(s.d, s.snaps[i].l1, s.snaps[i].l1Size)
  {
    hide StoredRun, L1At, PathRefs, L1Clusters;
    RunPassed(g, s, s', at, l1, addend, s.l1At, |s.l1|);
    ActivePassed(g, s, s', at, l1, addend);
    forall i | 0 <= i < |s.snaps|
      ensures StoredRun(g, s'.d, s.snaps[i].l1, s.snaps[i].l1Size)
      ensures s.snaps[i].l1 != at ==>
        L1At(s'.d, s.snaps[i].l1, s.snaps[i].l1Size) == L1At(s.d, s.snaps[i].l1, s.snaps[i].l1Size)
    {
      RunPassed(g, s, s', at, l1, addend, s.snaps[i].l1, s.snaps[i].l1Size);
    }
    forall c | c in s.meta ensures c in s'.d && s'.d[c].Refcounting() {}
  }

  lemma PassedRefs(g: Geometry, s: Img, s': Img, at: nat, l1: seq<Entry>, addend: int, roots: seq<seq<Entry>>,
      roots': seq<seq<Entry>>)
    requires Passed(s, s', at, l1, addend) && Exact(g, s, roots) && |s'.l1| == |s.l1|
    requires forall c: nat ::
      RootsRefs(s'.d, roots', c) == RootsRefs(s.d, roots, c) + Times(addend, PathRefs(s.d, l1, c))
    ensures Exact(g, s', roots')
  {
    forall c: nat ensures CountOf(s'.cnt, c) == OwnRefs(g, s', c) + RootsRefs(s'.d, roots', c) {
      assert CountOf(s.cnt, c) == OwnRefs(g, s, c) + RootsRefs(s.d, roots, c);
    }
  }

  // ---------- The three uses ----------

  lemma RootsApart(g: Geometry, s: Img, roots: seq<seq<Entry>>, x: nat, y: nat)
    requires Sound(g, s, roots) && x < |roots| && y < |roots| && x != y
    ensures Apart(s, roots[x], roots[y])
  {
    forall c: nat | PathRefs(s.d, roots[x], c) > 0 && PathRefs(s.d, roots[y], c) > 0 ensures CountOf(s.cnt, c) >= 2 {
      RootsPair(s.d, roots, x, y, c);
    }
  }

  function Without<T>(s: seq<T>, x: nat): (r: seq<T>)
    requires x < |s|
    ensures |r| == |s| - 1
    ensures forall y :: 0 <= y < |r| ==> r[y] == s[if y < x then y else y + 1]
  {
    s[..x] + s[x + 1..]
  }

  /** Every root other than the one passed over. */
  lemma PassOthers(g: Geometry, s: Img, s': Img, at: nat, roots: seq<seq<Entry>>, x: nat, addend: int)
    requires x < |roots| && Sound(g, s, roots) && Passed(s, s', at, roots[x], addend)
    ensures forall y :: 0 <= y < |roots| && y != x ==> RootPassed(g, s, s', roots[y])
  {
    assert RootOK(g, s.d, s.cnt, roots[x]);
    forall y | 0 <= y < |roots| && y != x ensures RootPassed(g, s, s', roots[y]) {
      assert RootOK(g, s.d, s.cnt, roots[y]) && RootInj(s.d, roots[y]);
      RootsApart(g, s, roots, x, y);
      ApartRoot(g, s, s', at, roots[x], addend, roots[y]);
    }
  }

  ghost predicate SamePaths(d: Disk, l1: seq<Entry>, d': Disk, l1': seq<Entry>) {
    forall c: nat :: PathRefs(d', l1', c) == PathRefs(d, l1, c)
  }

  lemma PassDownExact(g: Geometry, s: Img, s': Img, at: nat, roots: seq<seq<Entry>>, x: nat)
    requires x < |roots| && Exact(g, s, roots) && Passed(s, s', at, roots[x], -1) && |s'.l1| == |s.l1|
    requires forall y :: 0 <= y < |roots| && y != x ==> SamePaths(s.d, roots[y], s'.d, roots[y])
    ensures Exact(g, s', Without(roots, x))
  {
    var roots' := Without(roots, x);
    forall c: nat
      ensures RootsRefs(s'.d, roots', c) == RootsRefs(s.d, roots, c) + Times(-1, PathRefs(s.d, roots[x], c))
    {
      RootsRemove(s.d, roots, x, c);
      RootsSame(s.d, roots', s'.d, roots', c);
    }
    PassedRefs(g, s, s', at, roots[x], -1, roots, roots');
  }

  /** Giving up a counted table: its paths are no longer counted and every other root is as before. */
  lemma PassDown(g: Geometry, s: Img, s': Img, at: nat, roots: seq<seq<Entry>>, x: nat)
    requires x < |roots| && Sound(g, s, roots) && Passed(s, s', at, roots[x], -1)
    requires at == s.l1At ==> |roots[x]| == |s.l1|
    ensures Sound(g, s', Without(roots, x))
    ensures forall y :: 0 <= y < |roots| && y != x ==> RootPassed(g, s, s', roots[y])
  {
    PassedOwn(g, s, s', at, roots[x], -1);
    PassOthers(g, s, s', at, roots, x, -1);
    assert RootsOK(g, s', Without(roots, x)) by {
      var roots' := Without(roots, x);
      forall y | 0 <= y < |roots'| ensures RootOK(g, s'.d, s'.cnt, roots'[y]) && RootInj(s'.d, roots'[y]) {
        assert RootPassed(g, s, s', roots[if y < x then y else y + 1]);
      }
    }
    PassDownExact(g, s, s', at, roots, x);
  }

  lemma PassZeroExact(g: Geometry, s: Img, s': Img, at: nat, roots: seq<seq<Entry>>, x: nat, m: seq<Entry>)
    requires x < |roots| && Exact(g, s, roots) && Passed(s, s', at, roots[x], 0) && |s'.l1| == |s.l1|
    requires forall y :: 0 <= y < |roots| && y != x ==> SamePaths(s.d, roots[y], s'.d, roots[y])
    requires SamePaths(s.d, roots[x], s'.d, m)
    ensures Exact(g, s', roots[x := m])
  {
    var roots' := roots[x := m];
    forall c: nat
      ensures RootsRefs(s'.d, roots', c) == RootsRefs(s.d, roots, c) + Times(0, PathRefs(s.d, roots[x], c))
    {
      RootsSame(s.d, roots, s'.d, roots', c);
    }
    PassedRefs(g, s, s', at, roots[x], 0, roots, roots');
  }

  /** Refreshing the flags of a counted table. */
  lemma PassZero(g: Geometry, s: Img, s': Img, at: nat, roots: seq<seq<Entry>>, x: nat)
    requires x < |roots| && Sound(g, s, roots) && Passed(s, s', at, roots[x], 0)
    requires at == s.l1At ==> |roots[x]| == |s.l1|
    ensures Sound(g, s', roots[x := ReflagAll(s'.cnt, roots[x])])
    ensures RootExact(s'.d, s'.cnt, ReflagAll(s'.cnt, roots[x]))
    ensures forall y :: 0 <= y < |roots| && y != x ==> RootPassed(g, s, s', roots[y])
    ensures forall k: nat :: Look(g, s'.d, ReflagAll(s'.cnt, roots[x]), k) == Look(g, s.d, roots[x], k)
  {
    PassedOwn(g, s, s', at, roots[x], 0);
    PassOthers(g, s, s', at, roots, x, 0);
    var m := ReflagAll(s'.cnt, roots[x]);
    assert RootOK(g, s.d, s.cnt, roots[x]) && RootInj(s.d, roots[x]);
    SelfRoot(g, s, s', at, roots[x], 0);
    PassZeroExact(g, s, s', at, roots, x, m);
    assert RootsOK(g, s', roots[x := m]) by {
      var roots' := roots[x := m];
      forall y | 0 <= y < |roots'| ensures RootOK(g, s'.d, s'.cnt, roots'[y]) && RootInj(s'.d, roots'[y]) {
        assert y != x ==> RootPassed(g, s, s', roots[y]);
      }
    }
  }

  lemma PassUpExact(g: Geometry, s: Img, s': Img, at: nat, roots: seq<seq<Entry>>, l1: seq<Entry>, m: seq<Entry>)
    requires Exact(g, s, roots) && Passed(s, s', at, l1, 1) && |s'.l1| == |s.l1|
    requires forall y :: 0 <= y < |roots| ==> SamePaths(s.d, roots[y], s'.d, roots[y])
    requires SamePaths(s.d, l1, s'.d, m)
    ensures Exact(g, s', roots + [m])
  {
    var roots' := roots + [m];
    forall c: nat ensures RootsRefs(s'.d, roots', c) == RootsRefs(s.d, roots, c) + Times(1, PathRefs(s.d, l1, c)) {
      RootsAppend(s'.d, roots, [m], c);
      RootsOne(s'.d, m, c);
      RootsSame(s.d, roots, s'.d, roots, c);
    }
    PassedRefs(g, s, s', at, l1, 1, roots, roots');
  }

  /** Counting a table once more: it has the same clusters as counted root z, whose own entries are unflagged. */
  lemma PassUp(g: Geometry, s: Img, s': Img, at: nat, roots: seq<seq<Entry>>, z: nat, l1: seq<Entry>)
    requires z < |roots| && Sound(g, s, roots) && Passed(s, s', at, l1, 1)
    requires SameTable(roots[z], l1) && Plain(roots[z]) && (at == s.l1At ==> |l1| == |s.l1|)
    ensures Sound(g, s', roots + [ReflagAll(s'.cnt, l1)]) && RootExact(s'.d, s'.cnt, ReflagAll(s'.cnt, l1))
    ensures forall y :: 0 <= y < |roots| ==> RootPassed(g, s, s', roots[y])
    ensures forall k: nat :: Look(g, s'.d, ReflagAll(s'.cnt, l1), k) == Look(g, s.d, roots[z], k)
  {
    hide OwnShape, RootShape, RootSafe, RootInj, PathRefs, Look, SameTable, Plain;
    PassUpRoots(g, s, s', at, roots, z, l1);
    PassedOwn(g, s, s', at, l1, 1);
    var m := ReflagAll(s'.cnt, l1);
    SelfRoot(g, s, s', at, l1, 1);
    PassUpExact(g, s, s', at, roots, l1, m);
    assert RootsOK(g, s', roots + [m]) by {
      var roots' := roots + [m];
      forall y | 0 <= y < |roots'| ensures RootOK(g, s'.d, s'.cnt, roots'[y]) && RootInj(s'.d, roots'[y]) {
        assert y < |roots| ==> RootPassed(g, s, s', roots[y]);
      }
    }
  }

  lemma PassUpRoots(g: Geometry, s: Img, s': Img, at: nat, roots: seq<seq<Entry>>, z: nat, l1: seq<Entry>)
    requires z < |roots| && Sound(g, s, roots) && Passed(s, s', at, l1, 1)
    requires SameTable(roots[z], l1) && Plain(roots[z])
    ensures RootShape(g, s.d, l1) && RootInj(s.d, l1)
    ensures forall k: nat :: Look(g, s.d, l1, k) == Look(g, s.d, roots[z], k)
    ensures forall y :: 0 <= y < |roots| ==> RootPassed(g, s, s', roots[y])
  {
    assert RootOK(g, s.d, s.cnt, roots[z]) && RootInj(s.d, roots[z]);
    FlagsKeepRoot(g, s.d, s.d, roots[z], l1);
    assert forall c: nat :: PathRefs(s.d, roots[z], c) <= 1;
    forall y | 0 <= y < |roots| ensures RootPassed(g, s, s', roots[y]) {
      assert RootOK(g, s.d, s.cnt, roots[y]) && RootInj(s.d, roots[y]);
      if y == z {
        TwinRoot(g, s, s', at, l1, 1, roots[z]);
      } else {
        RootsApart(g, s, roots, z, y);
        assert Apart(s, l1, roots[y]);
        ApartRoot(g, s, s', at, l1, 1, roots[y]);
      }
    }
  }
}

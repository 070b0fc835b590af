/**
 Walking the tables of one L1 table entry by entry, as update_snapshot_refcount does: how far the counts have
 changed half way, and why the flag set when an entry is visited is the right one at the end.
 */
module Qcow2Walk {
  import opened Sums
  import opened Qcow2Format
  import opened Qcow2State
  import opened Qcow2Pass

  /** References to c along the first i entries of l1 and the first j entries of the next one's table. */
  function Partial(d: Disk, l1: seq<Entry>, c: nat, i: nat, j: nat): nat
    requires i <= |l1| && (j > 0 ==> i < |l1| && j <= |TableAt(d, l1[i].cluster)|)
  {
    Sum(PathWeights(d, l1, c)[..i]) + if j > 0 then Sum(Hits(TableAt(d, l1[i].cluster), c)[..j]) else 0
  }

  lemma PartialLeaf(d: Disk, l1: seq<Entry>, c: nat, i: nat, j: nat)
    requires i < |l1| && j < |TableAt(d, l1[i].cluster)|
    ensures Partial(d, l1, c, i, j + 1) == Partial(d, l1, c, i, j) + Hit(TableAt(d, l1[i].cluster)[j], c)
  {
    SumPrefix(Hits(TableAt(d, l1[i].cluster), c), j);
    assert Hits(TableAt(d, l1[i].cluster), c)[..0] == [];
  }

  lemma PartialRow(d: Disk, l1: seq<Entry>, c: nat, i: nat)
    requires i < |l1|
    ensures Partial(d, l1, c, i + 1, 0) == Partial(d, l1, c, i, 0) + EntryRefs(d, l1[i], c)
    ensures l1[i].cluster != 0 ==>
      Partial(d, l1, c, i + 1, 0) == Partial(d, l1, c, i, |TableAt(d, l1[i].cluster)|) + Hit(l1[i], c)
  {
    SumPrefix(PathWeights(d, l1, c), i);
    SumAll(Hits(TableAt(d, l1[i].cluster), c));
  }

  lemma {:induction false} SumPrefixBound(s: seq<nat>, i: nat)
    requires i <= |s|
    ensures Sum(s[..i]) <= Sum(s)
  {
    SumAppend(s[..i], s[i..]);
    assert s[..i] + s[i..] == s;
  }

  lemma PartialBound(d: Disk, l1: seq<Entry>, c: nat, i: nat)
    requires i <= |l1|
    ensures Partial(d, l1, c, i, 0) <= PathRefs(d, l1, c)
  {
    SumPrefixBound(PathWeights(d, l1, c), i);
  }

  /** An injective table is visited at most once: before the visit to leaf (i, j) nothing was counted for its cluster.
      */
  lemma LeafFirstVisit(d: Disk, l1: seq<Entry>, i: nat, j: nat)
    requires RootInj(d, l1) && i < |l1| && l1[i].cluster != 0 && j < |TableAt(d, l1[i].cluster)|
    requires TableAt(d, l1[i].cluster)[j].cluster != 0
    ensures var c := TableAt(d, l1[i].cluster)[j].cluster; Partial(d, l1, c, i, j) == 0 && PathRefs(d, l1, c) == 1
  {
    var t := TableAt(d, l1[i].cluster);
    var c := t[j].cluster;
    assert PathRefs(d, l1, c) <= 1;
    PartialLeaf(d, l1, c, i, j);
    SumPrefixBound(Hits(t, c), j + 1);
    PartialRow(d, l1, c, i);
    PartialBound(d, l1, c, i + 1);
  }

  lemma TableFirstVisit(d: Disk, l1: seq<Entry>, i: nat)
    requires RootInj(d, l1) && i < |l1| && l1[i].cluster != 0
    ensures var c := l1[i].cluster; Partial(d, l1, c, i, |TableAt(d, c)|) == 0 && PathRefs(d, l1, c) == 1
  {
    var c := l1[i].cluster;
    assert PathRefs(d, l1, c) <= 1;
    PartialRow(d, l1, c, i);
    PartialBound(d, l1, c, i + 1);
  }

  /** The count of c once the walk is over. */
  function FinalCount(s: Img, l1: seq<Entry>, addend: int, c: nat): int {
    CountOf(s.cnt, c) + Times(addend, PathRefs(s.d, l1, c))
  }

  function FinalFlag(s: Img, l1: seq<Entry>, addend: int, e: Entry): Entry {
    Entry(e.cluster, e.cluster != 0 && FinalCount(s, l1, addend, e.cluster) == 1)
  }

  function FinalTable(s: Img, l1: seq<Entry>, addend: int, t: seq<Entry>): (r: seq<Entry>)
    ensures |r| == |t|
  {
    seq(|t|, j requires 0 <= j < |t| => FinalFlag(s, l1, addend, t[j]))
  }

  /** Half way: counts changed by what was visited. */
  ghost predicate CountsAt(s: Img, cnt: map<nat, nat>, l1: seq<Entry>, addend: int, i: nat, j: nat)
    requires i <= |l1| && (j > 0 ==> i < |l1| && j <= |TableAt(s.d, l1[i].cluster)|)
  {
    forall c: nat :: CountOf(cnt, c) == CountOf(s.cnt, c) + Times(addend, Partial(s.d, l1, c, i, j))
  }

  /** The content of cluster c after the tables of the first i entries were rewritten. */
  function ContentAt(s: Img, l1: seq<Entry>, addend: int, i: nat, c: nat): Content
    requires i <= |l1| && c in s.d
  {
    if s.d[c].Table? && L2Refs(l1[..i], c) > 0 then Table(FinalTable(s, l1, addend, s.d[c].entries)) else s.d[c]
  }

  /** Half way: the tables behind the first i entries have their final flags. */
  predicate DiskAt(s: Img, d: Disk, l1: seq<Entry>, addend: int, i: nat)
    requires i <= |l1|
  {
    d.Keys == s.d.Keys && forall c :: c in s.d ==> d[c] == ContentAt(s, l1, addend, i, c)
  }

  lemma VisitedPrefix(l1: seq<Entry>, i: nat, c: nat)
    requires i < |l1|
    ensures L2Refs(l1[..i + 1], c) == L2Refs(l1[..i], c) + Hit(l1[i], c)
  {
    assert Hits(l1[..i + 1], c) == Hits(l1, c)[..i + 1];
    assert Hits(l1[..i], c) == Hits(l1, c)[..i];
    SumPrefix(Hits(l1, c), i);
  }

  /** A table not yet visited is as it was. */
  lemma TableUnvisited(s: Img, d: Disk, l1: seq<Entry>, addend: int, i: nat)
    requires i < |l1| && l1[i].cluster != 0 && DiskAt(s, d, l1, addend, i) && RootInj(s.d, l1) && l1[i].cluster in s.d
    ensures d[l1[i].cluster] == s.d[l1[i].cluster]
  {
    var c := l1[i].cluster;
    if L2Refs(l1[..i], c) > 0 {
      var h := SumWitness(Hits(l1[..i], c));
      assert PathRefs(s.d, l1, c) <= 1;
      PathPair(s.d, l1, h, i, c);
    }
  }

  lemma DiskNext(s: Img, d: Disk, l1: seq<Entry>, addend: int, i: nat)
    requires i < |l1| && DiskAt(s, d, l1, addend, i)
    requires l1[i].cluster != 0 ==> l1[i].cluster in s.d && s.d[l1[i].cluster].Table?
    ensures l1[i].cluster == 0 ==> DiskAt(s, d, l1, addend, i + 1)
    ensures l1[i].cluster != 0 ==>
      DiskAt(s, d[l1[i].cluster := Table(FinalTable(s, l1, addend, s.d[l1[i].cluster].entries))], l1, addend, i + 1)
  {
    forall c: nat ensures L2Refs(l1[..i + 1], c) == L2Refs(l1[..i], c) + Hit(l1[i], c) {
      VisitedPrefix(l1, i, c);
    }
  }

  lemma DiskStart(s: Img, l1: seq<Entry>, addend: int)
    ensures DiskAt(s, s.d, l1, addend, 0)
  {
    forall c | c in s.d ensures ContentAt(s, l1, addend, 0, c) == s.d[c] {
      assert Hits(l1[..0], c) == [];
    }
  }

  // ---------- The whole walk ----------

  lemma FinalCounts(s: Img, cnt: map<nat, nat>, l1: seq<Entry>, addend: int)
    requires CountsAt(s, cnt, l1, addend, |l1|, 0)
    ensures forall c: nat :: CountOf(cnt, c) == FinalCount(s, l1, addend, c)
  {
    forall c: nat ensures CountOf(cnt, c) == FinalCount(s, l1, addend, c) {
      SumAll(PathWeights(s.d, l1, c));
    }
  }

  lemma FinalIsReflag(s: Img, cnt: map<nat, nat>, l1: seq<Entry>, addend: int, t: seq<Entry>)
    requires forall c: nat :: CountOf(cnt, c) == FinalCount(s, l1, addend, c)
    ensures FinalTable(s, l1, addend, t) == ReflagAll(cnt, t)
  {
  }

  lemma VisitedIsReached(g: Geometry, s: Img, l1: seq<Entry>, c: nat)
    requires RootShape(g, s.d, l1) && c in s.d && s.d[c].Table?
    ensures L2Refs(l1, c) > 0 <==> PathRefs(s.d, l1, c) > 0
  {
    if L2Refs(l1, c) > 0 {
      var h := SumWitness(Hits(l1, c));
      PathLeaf(s.d, l1, h, 0);
    }
    if PathRefs(s.d, l1, c) > 0 {
      var i, j := PathWitness(g, s.d, l1, c);
      SumMember(Hits(l1, c), i);
    }
  }

  /** The image after the walk: new counts, rewritten tables, and the L1 table with its new flags. */
  function WalkResult(s: Img, d: Disk, cnt: map<nat, nat>, at: nat, l1: seq<Entry>): Img
    requires at in d && d[at].L1Head? && |l1| <= |d[at].entries|
  {
    s.(d := d[at := L1Head(l1 + d[at].entries[|l1|..])], cnt := cnt, l1 := if at == s.l1At then l1 else s.l1)
  }

  lemma WalkIsPass(g: Geometry, s: Img, d: Disk, cnt: map<nat, nat>, at: nat, l1: seq<Entry>, addend: int)
    requires RootShape(g, s.d, l1) && at in s.d && s.d[at].L1Head? && |l1| <= |s.d[at].entries|
    requires CountsAt(s, cnt, l1, addend, |l1|, 0) && DiskAt(s, d, l1, addend, |l1|)
    ensures at in d && d[at] == s.d[at]
    ensures Passed(s, WalkResult(s, d, cnt, at, FinalTable(s, l1, addend, l1)), at, l1, addend)
  {
    FinalCounts(s, cnt, l1, addend);
    FinalIsReflag(s, cnt, l1, addend, l1);
    forall c | c in s.d && c != at
      ensures d[c] == if s.d[c].Table? && PathRefs(s.d, l1, c) > 0 then Table(ReflagAll(cnt, s.d[c].entries))
        else s.d[c]
    {
      assert l1[..|l1|] == l1;
      if s.d[c].Table? {
        VisitedIsReached(g, s, l1, c);
        FinalIsReflag(s, cnt, l1, addend, s.d[c].entries);
      }
    }
  }

  // ---------- One visit ----------

  /** Counts along the table stay in range. */
  ghost predicate InRange(s: Img, l1: seq<Entry>, addend: int) {
    forall c: nat :: PathRefs(s.d, l1, c) > 0 ==> 0 <= CountOf(s.cnt, c) + addend <= 0xffff
  }

  /** What the table reaches is counted, and no refcount metadata. */
  ghost predicate InUse(s: Img, l1: seq<Entry>) {
    forall c: nat :: PathRefs(s.d, l1, c) > 0 ==> CountOf(s.cnt, c) > 0 && c !in s.meta
  }

  lemma RootInUse(g: Geometry, s: Img, roots: seq<seq<Entry>>, r: nat)
    requires Sound(g, s, roots) && r < |roots|
    ensures InUse(s, roots[r])
  {
    hide PathRefs, Sound;
    forall c: nat | PathRefs(s.d, roots[r], c) > 0 ensures CountOf(s.cnt, c) > 0 && c !in s.meta {
      ReachedIsCounted(g, s, roots, r, c);
    }
  }

  /** cnt' is cnt with c changed by addend (c is 0 for no cluster). */
  ghost predicate Bumped(cnt: map<nat, nat>, cnt': map<nat, nat>, c: nat, addend: int) {
    forall x: nat :: CountOf(cnt', x) == CountOf(cnt, x) + if x == c && c != 0 then addend else 0
  }

  /** The count a visit leaves is already the final one. */
  lemma LeafVisit(s: Img, cnt: map<nat, nat>, l1: seq<Entry>, addend: int, i: nat, j: nat)
    requires RootInj(s.d, l1) && InRange(s, l1, addend) && -1 <= addend <= 1
    requires i < |l1| && l1[i].cluster != 0 && j < |TableAt(s.d, l1[i].cluster)| && CountsAt(s, cnt, l1, addend, i, j)
    ensures var c := TableAt(s.d, l1[i].cluster)[j].cluster;
      c != 0 ==>
        && 0 <= CountOf(cnt, c) + addend <= 0xffff && CountOf(cnt, c) + addend == FinalCount(s, l1, addend, c)
        && CountOf(cnt, c) == CountOf(s.cnt, c) && PathRefs(s.d, l1, c) > 0
  {
    var c := TableAt(s.d, l1[i].cluster)[j].cluster;
    if c != 0 {
      LeafFirstVisit(s.d, l1, i, j);
      assert CountOf(cnt, c) == CountOf(s.cnt, c) + Times(addend, Partial(s.d, l1, c, i, j));
    }
  }

  lemma LeafBumped(s: Img, cnt: map<nat, nat>, cnt': map<nat, nat>, l1: seq<Entry>, addend: int, i: nat, j: nat)
    requires i < |l1| && l1[i].cluster != 0 && j < |TableAt(s.d, l1[i].cluster)| && CountsAt(s, cnt, l1, addend, i, j)
    requires -1 <= addend <= 1 && Bumped(cnt, cnt', TableAt(s.d, l1[i].cluster)[j].cluster, addend)
    ensures CountsAt(s, cnt', l1, addend, i, j + 1)
  {
    forall x: nat ensures CountOf(cnt', x) == CountOf(s.cnt, x) + Times(addend, Partial(s.d, l1, x, i, j + 1)) {
      PartialLeaf(s.d, l1, x, i, j);
      assert CountOf(cnt, x) == CountOf(s.cnt, x) + Times(addend, Partial(s.d, l1, x, i, j));
    }
  }

  lemma TableVisit(s: Img, cnt: map<nat, nat>, l1: seq<Entry>, addend: int, i: nat)
    requires RootInj(s.d, l1) && InRange(s, l1, addend) && -1 <= addend <= 1
    requires i < |l1| && l1[i].cluster != 0 && CountsAt(s, cnt, l1, addend, i, |TableAt(s.d, l1[i].cluster)|)
    ensures var c := l1[i].cluster;
      0 <= CountOf(cnt, c) + addend <= 0xffff && CountOf(cnt, c) + addend
        == FinalCount(s, l1, addend, c) && CountOf(cnt, c) == CountOf(s.cnt, c) && PathRefs(s.d, l1, c) > 0
  {
    var c := l1[i].cluster;
    TableFirstVisit(s.d, l1, i);
    assert CountOf(cnt, c) == CountOf(s.cnt, c) + Times(addend, Partial(s.d, l1, c, i, |TableAt(s.d, c)|));
  }

  lemma TableBumped(s: Img, cnt: map<nat, nat>, cnt': map<nat, nat>, l1: seq<Entry>, addend: int, i: nat)
    requires -1 <= addend <= 1 && i < |l1| && l1[i].cluster != 0
    requires CountsAt(s, cnt, l1, addend, i, |TableAt(s.d, l1[i].cluster)|) && Bumped(cnt, cnt', l1[i].cluster, addend)
    ensures CountsAt(s, cnt', l1, addend, i + 1, 0)
  {
    forall x: nat ensures CountOf(cnt', x) == CountOf(s.cnt, x) + Times(addend, Partial(s.d, l1, x, i + 1, 0)) {
      PartialRow(s.d, l1, x, i);
      assert CountOf(cnt, x) == CountOf(s.cnt, x)
        + Times(addend, Partial(s.d, l1, x, i, |TableAt(s.d, l1[i].cluster)|));
    }
  }

  lemma EmptyVisit(s: Img, cnt: map<nat, nat>, l1: seq<Entry>, addend: int, i: nat)
    requires i < |l1| && l1[i].cluster == 0 && CountsAt(s, cnt, l1, addend, i, 0)
    ensures CountsAt(s, cnt, l1, addend, i + 1, 0)
  {
    forall x: nat ensures CountOf(cnt, x) == CountOf(s.cnt, x) + Times(addend, Partial(s.d, l1, x, i + 1, 0)) {
      PartialRow(s.d, l1, x, i);
      assert CountOf(cnt, x) == CountOf(s.cnt, x) + Times(addend, Partial(s.d, l1, x, i, 0));
    }
  }

  lemma WalkStart(s: Img, l1: seq<Entry>, addend: int)
    ensures CountsAt(s, s.cnt, l1, addend, 0, 0)
  {
    forall x: nat ensures Partial(s.d, l1, x, 0, 0) == 0 {
      assert PathWeights(s.d, l1, x)[..0] == [];
    }
  }
}

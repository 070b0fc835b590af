/** check_refcounts: the walk that recounts every cluster and compares. */
module Qcow2Check {
  import opened Sums
  import opened Qcow2Format
  import opened Qcow2State
  import opened Qcow2Grow
  import opened Qcow2Snap
  import opened RefcountState
  import opened RefcountSteps
  import opened RefcountLink

  // ---------- What the walk counts ----------

  function TableSet(t: seq<Entry>, n: nat): multiset<nat>
    requires n <= |t|
  {
    if n == 0 then multiset{}
      else TableSet(t, n - 1) + (if t[n - 1].cluster == 0 then multiset{} else multiset{t[n - 1].cluster})
  }

  function EntrySet(d: Disk, e: Entry): multiset<nat> {
    if e.cluster == 0 then multiset{}
      else TableSet(TableAt(d, e.cluster), |TableAt(d, e.cluster)|) + multiset{e.cluster}
  }

  function PathSet(d: Disk, l1: seq<Entry>, n: nat): multiset<nat>
    requires n <= |l1|
  {
    if n == 0 then multiset{} else PathSet(d, l1, n - 1) + EntrySet(d, l1[n - 1])
  }

  function RootSet(g: Geometry, d: Disk, at: nat, size: nat): multiset<nat> {
    RunClusters(at, L1Clusters(g, size)) + PathSet(d, L1At(d, at, size), |L1At(d, at, size)|)
  }

  function SnapSet(g: Geometry, d: Disk, snaps: seq<Snapshot>, n: nat): multiset<nat>
    requires n <= |snaps|
  {
    if n == 0 then multiset{} else SnapSet(g, d, snaps, n - 1) + RootSet(g, d, snaps[n - 1].l1, snaps[n - 1].l1Size)
  }

  function BlockSet(table: seq<nat>, n: nat): multiset<nat>
    requires n <= |table|
  {
    if n == 0 then multiset{}
      else BlockSet(table, n - 1) + (if table[n - 1] == 0 then multiset{} else multiset{table[n - 1]})
  }

  function MetaRefs(st: Store): multiset<nat> {
    RunClusters(st.tableAt, TableClusters(st)) + BlockSet(st.table, |st.table|)
  }

  function AllSet(g: Geometry, s: Img, st: Store): multiset<nat> {
    multiset{0} + RootSet(g, s.d, s.l1At, |s.l1|)
      + SnapSet(g, s.d, s.snaps, |s.snaps|) + RunClusters(s.snapAt, s.snapLen)
    + MetaRefs(st)
  }

  // ---------- The walk counts what the invariant counts ----------

  lemma {:induction false} TableSetAt(t: seq<Entry>, n: nat, c: nat)
    requires n <= |t|
    ensures TableSet(t, n)[c] == Sum(Hits(t, c)[..n])
  {
    if n > 0 {
      TableSetAt(t, n - 1, c);
      SumPrefix(Hits(t, c), n - 1);
    }
  }

  lemma EntrySetAt(d: Disk, e: Entry, c: nat)
    ensures EntrySet(d, e)[c] == EntryRefs(d, e, c)
  {
    if e.cluster != 0 {
      var t := TableAt(d, e.cluster);
      TableSetAt(t, |t|, c);
      SumAll(Hits(t, c));
    }
  }

  lemma {:induction false} PathSetAt(d: Disk, l1: seq<Entry>, n: nat, c: nat)
    requires n <= |l1|
    ensures PathSet(d, l1, n)[c] == Sum(PathWeights(d, l1, c)[..n])
  {
    hide EntrySet, EntryRefs;
    if n > 0 {
      PathSetAt(d, l1, n - 1, c);
      EntrySetAt(d, l1[n - 1], c);
      SumPrefix(PathWeights(d, l1, c), n - 1);
    }
  }

  lemma RootSetAt(g: Geometry, d: Disk, at: nat, size: nat, c: nat)
    ensures RootSet(g, d, at, size)[c] == B(InRun(at, L1Clusters(g, size), c)) + PathRefs(d, L1At(d, at, size), c)
  {
    hide PathSet, L1Clusters, L1At, RunClusters;
    var l1 := L1At(d, at, size);
    RunClustersAt(at, L1Clusters(g, size), c);
    PathSetAt(d, l1, |l1|, c);
    SumAll(PathWeights(d, l1, c));
  }

  lemma {:induction false} SnapSetAt(g: Geometry, d: Disk, snaps: seq<Snapshot>, n: nat, c: nat)
    requires n <= |snaps|
    ensures SnapSet(g, d, snaps, n)[c]
      == Sum(SnapRunWeights(g, snaps, c)[..n]) + Sum(RootWeights(d, SnapRoots(d, snaps), c)[..n])
  {
    hide RootSet, PathRefs, L1Clusters, L1At;
    if n > 0 {
      SnapSetAt(g, d, snaps, n - 1, c);
      RootSetAt(g, d, snaps[n - 1].l1, snaps[n - 1].l1Size, c);
      SumPrefix(SnapRunWeights(g, snaps, c), n - 1);
      SumPrefix(RootWeights(d, SnapRoots(d, snaps), c), n - 1);
    }
  }

  lemma RootsFirst(d: Disk, l1: seq<Entry>, roots: seq<seq<Entry>>, c: nat)
    ensures RootsRefs(d, [l1] + roots, c) == PathRefs(d, l1, c) + RootsRefs(d, roots, c)
  {
    hide PathRefs;
    var w := RootWeights(d, roots, c);
    assert RootWeights(d, [l1] + roots, c) == [PathRefs(d, l1, c)] + w;
    SumAppend([PathRefs(d, l1, c)], w);
  }

  /** Apart from lost clusters, the walk finds exactly the references of the invariant. */
  lemma AllSetAt(g: Geometry, s: Img, st: Store, c: nat)
    requires OwnShape(g, s) && Inv(st) && Mirrors(g, s.cnt, s.meta, st)
    ensures AllSet(g, s, st)[c] + s.leaked[c] == OwnRefs(g, s, c) + RootsRefs(s.d, Roots(s), c)
  {
    hide RootSet, SnapSet, PathRefs, L1Clusters, RunClusters, RootsRefs, SnapRoots, Inv, MetaRefs, IsMeta, Count;
    MetaRefsAt(st, c);
    RootSetAt(g, s.d, s.l1At, |s.l1|, c);
    SnapsAllAt(g, s.d, s.snaps, c);
    RunClustersAt(s.snapAt, s.snapLen, c);
    RootsFirst(s.d, s.l1, SnapRoots(s.d, s.snaps), c);
  }

  lemma {:induction false} BlockSetAt(table: seq<nat>, n: nat, c: nat)
    requires n <= |table| && forall t, u :: 0 <= t < u < |table| && table[t] != 0 ==> table[t] != table[u]
    ensures BlockSet(table, n)[c] == B(c != 0 && c in table[..n])
  {
    if n > 0 {
      BlockSetAt(table, n - 1, c);
      assert table[..n] == table[..n - 1] + [table[n - 1]];
    }
  }

  /** The refcount metadata is counted once, cluster by cluster. */
  lemma MetaRefsAt(st: Store, c: nat)
    requires Inv(st)
    ensures MetaRefs(st)[c] == B(IsMeta(st, c))
  {
    hide RunClusters, BlockSet, HeldOK, Count;
    RunClustersAt(st.tableAt, TableClusters(st), c);
    BlockSetAt(st.table, |st.table|, c);
    assert st.table[..|st.table|] == st.table;
    if InRun(st.tableAt, TableClusters(st), c) {
      TableNotBlock(st, c);
    }
  }

  lemma SnapsAllAt(g: Geometry, d: Disk, snaps: seq<Snapshot>, c: nat)
    ensures SnapSet(g, d, snaps, |snaps|)[c] == SnapRunRefs(g, snaps, c) + RootsRefs(d, SnapRoots(d, snaps), c)
  {
    hide SnapSet, SnapRoots;
    SnapSetAt(g, d, snaps, |snaps|, c);
    SumAll(SnapRunWeights(g, snaps, c));
    SumAll(RootWeights(d, SnapRoots(d, snaps), c));
  }

  // ---------- check_refcounts ----------

  /** The recount fits the table: every cluster counted lies in the file, and no count overflows. */
  ghost predicate Fine(refs: multiset<nat>, nb: nat) {
    forall c: nat :: c in refs ==> c < nb && refs[c] <= MAX_COUNT
  }

  lemma FineBefore(refs: multiset<nat>, more: multiset<nat>, nb: nat)
    requires Fine(refs + more, nb)
    ensures Fine(refs, nb)
  {
    forall c: nat | c in refs ensures c < nb && refs[c] <= MAX_COUNT {
      assert c in refs + more;
    }
  }

  /** No error was found just when the recount is fine and so are the flags checked; the table then holds it. */
  ghost predicate Tally(table: seq<nat>, refs: multiset<nat>, flags: bool, errors: nat) {
    && (errors == 0 <==> Fine(refs, |table|) && flags)
    && (errors == 0 ==> forall c :: 0 <= c < |table| ==> table[c] == refs[c])
  }

  /** inc_refcounts for one cluster. */
  method IncOne(table: array<nat>, c: nat, errors: nat, ghost refs: multiset<nat>, ghost flags: bool)
    returns (errors': nat)
    requires Tally(table[..], refs, flags, errors)
    modifies table
    ensures Tally(table[..], refs + multiset{c}, flags, errors')
  {
    errors' := errors;
    if Fine(refs + multiset{c}, table.Length) {
      FineBefore(refs, multiset{c}, table.Length);
    }
    assert (refs + multiset{c})[c] == refs[c] + 1;
    if c >= table.Length {
      errors' := errors' + 1;
      assert c in refs + multiset{c};
    } else {
      ghost var before := table[..];
      table[c] := (table[c] + 1) % (MAX_COUNT + 1);
      if table[c] == 0 {
        errors' := errors' + 1;
      }
      IncTally(before, table[..], c, refs, flags, errors, errors');
    }
  }

  lemma IncTally(before: seq<nat>, after: seq<nat>, c: nat, refs: multiset<nat>, flags: bool, errors: nat, errors': nat)
    requires Tally(before, refs, flags, errors) && c < |before|
    requires after == before[c := (before[c] + 1) % (MAX_COUNT + 1)]
    requires errors' == errors + B(after[c] == 0)
    ensures Tally(after, refs + multiset{c}, flags, errors')
  {
    var refs' := refs + multiset{c};
    if errors == 0 {
      assert before[c] == refs[c] <= MAX_COUNT by { assert c in refs ==> refs[c] <= MAX_COUNT; }
      forall x: nat | x in refs' ensures x < |after| && (refs'[x] <= MAX_COUNT || errors' > 0) {
        assert x == c || x in refs;
      }
      if errors' > 0 {
        assert c in refs' && refs'[c] > MAX_COUNT;
      }
    } else if Fine(refs', |after|) {
      FineBefore(refs, multiset{c}, |after|);
    }
  }

  /** inc_refcounts for a run of clusters. */
  method IncRun(table: array<nat>, at: nat, n: nat, errors: nat, ghost refs: multiset<nat>, ghost flags: bool)
    returns (errors': nat)
    requires Tally(table[..], refs, flags, errors)
    modifies table
    ensures Tally(table[..], refs + RunClusters(at, n), flags, errors')
  {
    hide Tally;
    errors' := errors;
    var i := 0;
    assert refs + RunClusters(at, 0) == refs;
    while i < n
      invariant i <= n && Tally(table[..], refs + RunClusters(at, i), flags, errors')
    {
      errors' := IncOne(table, at + i, errors', refs + RunClusters(at, i), flags);
      Group(refs, RunClusters(at, i), multiset{at + i});
      i := i + 1;
    }
  }

  lemma Group(x: multiset<nat>, y: multiset<nat>, z: multiset<nat>)
    ensures (x + y) + z == x + (y + z)
  {
  }

  /** The copied flag of one entry is checked against the stored count. */
  method CheckFlag(cnt: map<nat, nat>, e: Entry, check: bool, errors: nat, table: array<nat>, ghost refs: multiset<nat>,
      ghost flags: bool) returns (errors': nat)
    requires Tally(table[..], refs, flags, errors) && e.cluster != 0
    ensures Tally(table[..], refs, flags && (check ==> FlagExact(cnt, e)), errors')
  {
    errors' := errors;
    if check {
      var count := if e.cluster in cnt then cnt[e.cluster] else 0;
      if (count == 1) != e.copied {
        errors' := errors' + 1;
      }
    }
  }

  /** The entries of one L2 table. */
  method CheckTable(cnt: map<nat, nat>, t: seq<Entry>, check: bool, errors: nat, table: array<nat>,
      ghost refs: multiset<nat>, ghost flags: bool) returns (errors': nat)
    requires Tally(table[..], refs, flags, errors)
    modifies table
    ensures Tally(table[..], refs + TableSet(t, |t|), flags && (check ==> TableExact(cnt, t)), errors')
  {
    hide Tally, FlagExact;
    errors' := errors;
    var j := 0;
    assert refs + TableSet(t, 0) == refs;
    while j < |t|
      invariant j <= |t|
      invariant Tally(table[..], refs + TableSet(t, j), flags && (check ==> TableExact(cnt, t[..j])), errors')
    {
      ghost var now, ok := refs + TableSet(t, j), flags && (check ==> TableExact(cnt, t[..j]));
      ExactNext(cnt, t, j);
      if t[j].cluster != 0 {
        errors' := CheckFlag(cnt, t[j], check, errors', table, now, ok);
        errors' := IncOne(table, t[j].cluster, errors', now, ok && (check ==> FlagExact(cnt, t[j])));
        Group(refs, TableSet(t, j), multiset{t[j].cluster});
      } else {
        Nothing(refs, TableSet(t, j));
      }
      j := j + 1;
    }
    assert t[..j] == t;
  }

  lemma Nothing(x: multiset<nat>, y: multiset<nat>)
    ensures x + (y + multiset{}) == x + y
  {
  }

  lemma ExactNext(cnt: map<nat, nat>, t: seq<Entry>, j: nat)
    requires j < |t|
    ensures TableExact(cnt, t[..j + 1]) <==> TableExact(cnt, t[..j]) && FlagExact(cnt, t[j])
    ensures t[j].cluster == 0 ==> FlagExact(cnt, t[j])
  {
    var x, y := t[..j], t[..j + 1];
    assert forall i :: 0 <= i < j ==> x[i] == y[i] == t[i];
    assert y[j] == t[j];
  }

  lemma RootExactNext(d: Disk, cnt: map<nat, nat>, l1: seq<Entry>, i: nat)
    requires i < |l1|
    ensures RootExact(d, cnt, l1[..i + 1]) <==>
      && RootExact(d, cnt, l1[..i]) && FlagExact(cnt, l1[i])
      && (l1[i].cluster != 0 ==> TableExact(cnt, TableAt(d, l1[i].cluster)))
    ensures l1[i].cluster == 0 ==> FlagExact(cnt, l1[i])
  {
    hide TableExact;
    var x, y := l1[..i], l1[..i + 1];
    assert forall h :: 0 <= h < i ==> x[h] == y[h] == l1[h];
    assert y[i] == l1[i];
  }

  /** check_refcounts_l1. */
  method CheckL1(g: Geometry, s: Img, at: nat, size: nat, check: bool, errors: nat, table: array<nat>,
      ghost refs: multiset<nat>, ghost flags: bool) returns (errors': nat)
    requires Tally(table[..], refs, flags, errors)
    modifies table
    ensures Tally(table[..], refs
      + RootSet(g, s.d, at, size), flags && (check ==> RootExact(s.d, s.cnt, L1At(s.d, at, size))), errors')
  {
    hide Tally, TableExact, FlagExact, RootExact;
    var l1 := L1At(s.d, at, size);
    errors' := IncRun(table, at, L1Clusters(g, size), errors, refs, flags);
    ghost var base := refs + RunClusters(at, L1Clusters(g, size));
    errors' := CheckPaths(s, l1, check, errors', table, base, flags);
    Group(refs, RunClusters(at, L1Clusters(g, size)), PathSet(s.d, l1, |l1|));
  }

  method CheckPaths(s: Img, l1: seq<Entry>, check: bool, errors: nat, table: array<nat>, ghost refs: multiset<nat>,
      ghost flags: bool) returns (errors': nat)
    requires Tally(table[..], refs, flags, errors)
    modifies table
    ensures Tally(table[..], refs + PathSet(s.d, l1, |l1|), flags && (check ==> RootExact(s.d, s.cnt, l1)), errors')
  {
    hide Tally, TableExact, FlagExact, RootExact, EntrySet;
    errors' := errors;
    var i := 0;
    NoExact(s.d, s.cnt, l1);
    assert refs + PathSet(s.d, l1, 0) == refs;
    while i < |l1|
      invariant i <= |l1|
      invariant Tally(table[..], refs
        + PathSet(s.d, l1, i), flags && (check ==> RootExact(s.d, s.cnt, l1[..i])), errors')
    {
      RootExactNext(s.d, s.cnt, l1, i);
      errors' := CheckEntry(s, l1[i], check, errors', table, refs + PathSet(s.d, l1, i),
        flags && (check ==> RootExact(s.d, s.cnt, l1[..i])));
      Group(refs, PathSet(s.d, l1, i), EntrySet(s.d, l1[i]));
      i := i + 1;
    }
    assert l1[..i] == l1;
  }

  lemma NoExact(d: Disk, cnt: map<nat, nat>, l1: seq<Entry>)
    ensures RootExact(d, cnt, l1[..0])
  {
  }

  method CheckEntry(s: Img, e: Entry, check: bool, errors: nat, table: array<nat>, ghost refs: multiset<nat>,
      ghost flags: bool) returns (errors': nat)
    requires Tally(table[..], refs, flags, errors) && (e.cluster == 0 ==> FlagExact(s.cnt, e))
    modifies table
    ensures Tally(table[..], refs + EntrySet(s.d, e), flags
      && (check ==> FlagExact(s.cnt, e) && (e.cluster != 0 ==> TableExact(s.cnt, TableAt(s.d, e.cluster)))), errors')
  {
    hide Tally, TableExact, FlagExact, TableSet;
    errors' := errors;
    if e.cluster != 0 {
      var t := TableAt(s.d, e.cluster);
      errors' := CheckFlag(s.cnt, e, check, errors', table, refs, flags);
      ghost var ok := flags && (check ==> FlagExact(s.cnt, e));
      errors' := CheckTable(s.cnt, t, check, errors', table, refs, ok);
      errors' := IncOne(table, e.cluster, errors', refs + TableSet(t, |t|), ok && (check ==> TableExact(s.cnt, t)));
      Group(refs, TableSet(t, |t|), multiset{e.cluster});
    } else {
      assert refs + multiset{} == refs;
    }
  }

  /** What check_refcounts looks for, over a file of nb clusters. */
  ghost predicate Clean(g: Geometry, s: Img, st: Store, nb: nat) {
    && Fine(AllSet(g, s, st), nb) && RootExact(s.d, s.cnt, L1At(s.d, s.l1At, |s.l1|))
    && forall c: nat :: c < nb ==> CountOf(s.cnt, c) == AllSet(g, s, st)[c]
  }

  method CheckSnapshots(g: Geometry, s: Img, errors: nat, table: array<nat>, ghost refs: multiset<nat>,
      ghost flags: bool) returns (errors': nat)
    requires Tally(table[..], refs, flags, errors)
    modifies table
    ensures Tally(table[..], refs + SnapSet(g, s.d, s.snaps, |s.snaps|), flags, errors')
  {
    hide Tally, RootSet;
    errors' := errors;
    var i := 0;
    assert refs + SnapSet(g, s.d, s.snaps, 0) == refs;
    while i < |s.snaps|
      invariant i <= |s.snaps| && Tally(table[..], refs + SnapSet(g, s.d, s.snaps, i), flags, errors')
    {
      errors' := CheckL1(g, s, s.snaps[i].l1, s.snaps[i].l1Size, false, errors', table,
        refs + SnapSet(g, s.d, s.snaps, i), flags);
      Group(refs, SnapSet(g, s.d, s.snaps, i), RootSet(g, s.d, s.snaps[i].l1, s.snaps[i].l1Size));
      i := i + 1;
    }
  }

  /** The blocks listed in the refcount table, one by one. */
  method CheckBlocks(blocks: seq<nat>, errors: nat, table: array<nat>, ghost refs: multiset<nat>, ghost flags: bool)
    returns (errors': nat)
    requires Tally(table[..], refs, flags, errors)
    modifies table
    ensures Tally(table[..], refs + BlockSet(blocks, |blocks|), flags, errors')
  {
    hide Tally;
    errors' := errors;
    var i := 0;
    assert refs + BlockSet(blocks, 0) == refs;
    while i < |blocks|
      invariant i <= |blocks| && Tally(table[..], refs + BlockSet(blocks, i), flags, errors')
    {
      if blocks[i] != 0 {
        errors' := IncOne(table, blocks[i], errors', refs + BlockSet(blocks, i), flags);
        Group(refs, BlockSet(blocks, i), multiset{blocks[i]});
      } else {
        assert BlockSet(blocks, i + 1) == BlockSet(blocks, i);
      }
      i := i + 1;
    }
  }

  /** It reports no error exactly when the counts and the active flags are right. */
  method CheckRefcounts(g: Geometry, s: Img, st: Store, nb: nat) returns (errors: nat)
    ensures errors == 0 <==> Clean(g, s, st, nb)
  {
    hide Tally, RootSet, SnapSet, RootExact, Fine, BlockSet;
    var table := new nat[nb](_ => 0);
    StartTally(table[..]);
    errors := IncOne(table, 0, 0, multiset{}, true);
    assert multiset{} + multiset{0} == multiset{0};
    errors := CheckL1(g, s, s.l1At, |s.l1|, true, errors, table, multiset{0}, true);
    ghost var refs, flags := multiset{0}
      + RootSet(g, s.d, s.l1At, |s.l1|), RootExact(s.d, s.cnt, L1At(s.d, s.l1At, |s.l1|));
    errors := CheckSnapshots(g, s, errors, table, refs, flags);
    refs := refs + SnapSet(g, s.d, s.snaps, |s.snaps|);
    errors := IncRun(table, s.snapAt, s.snapLen, errors, refs, flags);
    refs := refs + RunClusters(s.snapAt, s.snapLen);
    errors := IncRun(table, st.tableAt, TableClusters(st), errors, refs, flags);
    errors := CheckBlocks(st.table, errors, table, refs + RunClusters(st.tableAt, TableClusters(st)), flags);
    Group(refs, RunClusters(st.tableAt, TableClusters(st)), BlockSet(st.table, |st.table|));
    refs := refs + MetaRefs(st);
    errors := Compare(s.cnt, table, errors, refs, flags);
  }

  lemma StartTally(table: seq<nat>)
    requires forall c :: 0 <= c < |table| ==> table[c] == 0
    ensures Tally(table, multiset{}, true, 0)
  {
  }

  method Compare(cnt: map<nat, nat>, table: array<nat>, errors: nat, ghost refs: multiset<nat>, ghost flags: bool)
    returns (errors': nat)
    requires Tally(table[..], refs, flags, errors)
    ensures errors' == 0 <==> Fine(refs, table.Length) && flags && forall c: nat ::
      c < table.Length ==> CountOf(cnt, c) == refs[c]
  {
    errors' := errors;
    var i := 0;
    while i < table.Length
      invariant i <= table.Length && errors' >= errors
      invariant errors == 0 ==> (errors' == 0 <==> forall c: nat :: c < i ==> CountOf(cnt, c) == refs[c])
    {
      var count := if i in cnt then cnt[i] else 0;
      assert table[..][i] == table[i];
      if count != table[i] {
        errors' := errors' + 1;
      }
      i := i + 1;
    }
  }

  // ---------- What a clean check means ----------

  /** Every cluster in use lies in the file. */
  ghost predicate InFile(s: Img, nb: nat) { forall c: nat :: CountOf(s.cnt, c) > 0 ==> c < nb }

  /** A consistent image whose counts the store holds passes the check exactly when no cluster has been lost. */
  lemma CleanIsLossless(g: Geometry, s: Img, st: Store, nb: nat)
    requires Consistent(g, s) && Bounded(s) && InFile(s, nb) && Inv(st) && Mirrors(g, s.cnt, s.meta, st)
    ensures Clean(g, s, st, nb) <==> s.leaked == multiset{}
  {
    hide AllSet, RootsRefs, OwnRefs, RootExact, RootsOK, Roots, Inv, Mirrors;
    forall c: nat ensures CountOf(s.cnt, c) == AllSet(g, s, st)[c] + s.leaked[c] {
      AllSetAt(g, s, st, c);
      assert CountOf(s.cnt, c) == OwnRefs(g, s, c) + RootsRefs(s.d, Roots(s), c);
    }
    if s.leaked == multiset{} {
      forall c: nat | c in AllSet(g, s, st) ensures c < nb && AllSet(g, s, st)[c] <= MAX_COUNT {
        assert CountOf(s.cnt, c) == AllSet(g, s, st)[c] + s.leaked[c];
      }
    }
  }
}

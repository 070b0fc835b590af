/** How the steps of the refcount functions compose: counts change only for the clusters asked for and for metadata. */
module RefcountSteps {
  import opened Arith
  import opened Qcow2Format
  import opened Qcow2Grow
  import opened RefcountState

  /** All metadata is counted. */
  ghost predicate Settled(st: Store) {
    Count(st, 0) > 0 && forall x: nat :: IsMeta(st, x) ==> Count(st, x) > 0
  }

  /** Each cluster of the run gains a reference; otherwise counts follow the metadata as it comes and goes,
      new metadata was free, and no cluster in other use is written. */
  ghost predicate Evolves(st: Store, st': Store, at: nat, n: nat) {
    && st'.b == st.b && st'.e == st.e
    && (forall x: nat :: Count(st', x) + B(IsMeta(st, x)) == Count(st, x) + B(IsMeta(st', x)) + B(InRun(at, n, x)))
    && (forall x: nat :: IsMeta(st', x) ==> IsMeta(st, x) || Count(st, x) == 0)
    && (forall x: nat :: x in st.d && Count(st, x) > 0 && !IsMeta(st, x) ==> x in st'.d && st'.d[x] == st.d[x])
  }

  lemma EvolvesSame(st: Store, at: nat)
    ensures Evolves(st, st, at, 0)
  {
  }

  lemma EvolvesThen(st: Store, st1: Store, st2: Store, at: nat, i: nat, n: nat)
    requires Evolves(st, st1, at, i) && Evolves(st1, st2, at + i, n)
    ensures Evolves(st, st2, at, i + n)
  {
    forall x: nat
      ensures Count(st2, x) + B(IsMeta(st, x)) == Count(st, x) + B(IsMeta(st2, x)) + B(InRun(at, i + n, x))
    {
      assert Count(st1, x) + B(IsMeta(st, x)) == Count(st, x) + B(IsMeta(st1, x)) + B(InRun(at, i, x));
      assert Count(st2, x) + B(IsMeta(st1, x)) == Count(st1, x) + B(IsMeta(st2, x)) + B(InRun(at + i, n, x));
    }
    forall x: nat | Count(st, x) > 0 && !IsMeta(st, x) ensures Count(st1, x) > 0 && !IsMeta(st1, x) {
      assert Count(st1, x) + B(IsMeta(st, x)) == Count(st, x) + B(IsMeta(st1, x)) + B(InRun(at, i, x));
    }
    forall x: nat | IsMeta(st2, x) ensures IsMeta(st, x) || Count(st, x) == 0 {}
  }

  lemma EvolvesSettled(st: Store, st': Store, at: nat, n: nat)
    requires Evolves(st, st', at, n) && Settled(st) && Inv(st)
    ensures Settled(st')
  {
    EvolvesAt(st, st', at, n, 0);
    forall x: nat | IsMeta(st', x) ensures Count(st', x) > 0 {
      EvolvesAt(st, st', at, n, x);
    }
  }

  lemma EvolvesAt(st: Store, st': Store, at: nat, n: nat, x: nat)
    requires Evolves(st, st', at, n)
    ensures Count(st', x) + B(IsMeta(st, x)) == Count(st, x) + B(IsMeta(st', x)) + B(InRun(at, n, x))
  {
  }

  predicate SameTables(st: Store, st': Store) {
    st'.b == st.b && st'.e == st.e && st'.table == st.table && st'.tableAt == st.tableAt
  }

  lemma SameMeta(st: Store, st': Store)
    requires SameTables(st, st')
    ensures forall x: nat :: IsMeta(st', x) == IsMeta(st, x)
  {
  }

  /** The count of c, whose region has a block, becomes n. */
  ghost predicate Recounted(st: Store, st': Store, c: nat, n: nat) {
    && SameTables(st, st') && Inv(st') && Covered(st, Region(st.b, c)) && st'.cacheAt == st.table[Region(st.b, c)]
    && (forall y: nat :: Count(st', y) == if y == c then n else Count(st, y))
    && (forall x: nat :: x in st.d && (x == 0 || x !in st.table) ==> x in st'.d && st'.d[x] == st.d[x])
    && st'.free == if n == 0 && c < st.free then c else st.free
  }

  lemma RecountedEvolves(st: Store, st': Store, c: nat)
    requires Recounted(st, st', c, Count(st, c) + 1)
    ensures Evolves(st, st', c, 1)
  {
    SameMeta(st, st');
  }

  /** Saving a count through the cached block of its region. */
  lemma SaveRecounts(st: Store, c: nat, n: nat)
    requires Inv(st) && Covered(st, Region(st.b, c)) && st.cacheAt == st.table[Region(st.b, c)] && n <= MAX_COUNT
    requires n > 0 || (Settled(st) && !IsMeta(st, c) && c != 0)
    ensures c % st.b < |st.cache| && c % st.b < |BlockAt(st.d, st.cacheAt)| && st.cache[c % st.b] == Count(st, c)
    ensures Recounted(st, Saved(st, st.cacheAt, c, n).(free := if n == 0 && c < st.free then c else st.free), c, n)
  {
    SavedCount(st, c, n);
    SavedInv(st, c, n);
    var st' := Saved(st, st.cacheAt, c, n);
    var free := if n == 0 && c < st.free then c else st.free;
    var st2 := st'.(free := free);
    SearchCount(st', st2);
    SameMeta(st, st2);
    assert Inv(st2);
  }

  // ---------- A new block ----------

  /** The new block o, counted at once in its own region. */
  lemma NewBlockEvolves(st: Store, st2: Store, t: nat, o: nat)
    requires Inv(st) && t < |st.table| && st.table[t] == 0 && o != 0 && Count(st, o) == 0 && o >= st.free
    requires Recounted(NewBlock(st, t, o), st2, o, 1)
    ensures Evolves(st, st2, 0, 0) && Count(st2, o) == 1
  {
    var st1 := NewBlock(st, t, o);
    NewBlockInv(st, t, o);
    SameMeta(st1, st2);
    forall x: nat ensures IsMeta(st2, x) <==> IsMeta(st, x) || x == o {
      assert IsMeta(st1, x) == IsMeta(st2, x);
      assert st1.table[t] == o;
      if x in st.table && x != 0 {
        var u :| 0 <= u < |st.table| && st.table[u] == x;
        assert st1.table[u] == x;
      }
    }
    forall x: nat ensures Count(st2, x) == Count(st, x) + B(x == o) {
      assert Count(st1, x) == Count(st, x);
    }
    forall x: nat | x in st.d && Count(st, x) > 0 && !IsMeta(st, x) ensures x in st2.d && st2.d[x] == st.d[x] {
      assert !IsMeta(st1, x);
    }
  }

  // ---------- A longer table ----------

  /** The clusters grow_refcount_table gives a table of k clusters that must hold `min` entries. */
  function GrownClusters(k: nat, e: Pos, min: nat): (r: nat)
    ensures r > k && min <= r * e
    decreases if k < min then min - k else 0
  {
    var k' := if k == 0 then 1 else (k * 3 + 1) / 2;
    if min <= k' * e then k' else MulMono(1, e, k'); GrownClusters(k', e, min)
  }

  /** It is the first of the lengths that growing by one half gives which holds min entries. */
  lemma {:induction false} GrownClustersFirst(k: nat, e: Pos, min: nat) returns (n: nat)
    ensures n > 0 && GrownClusters(k, e, min) == LargerTimes(k, n)
    ensures min <= LargerTimes(k, n) * e && forall j: nat :: 0 < j < n ==> LargerTimes(k, j) * e < min
    decreases if k < min then min - k else 0
  {
    var k' := Larger(k);
    assert LargerTimes(k, 1) == Larger(LargerTimes(k, 0)) == k';
    if min <= k' * e {
      n := 1;
    } else {
      MulMono(1, e, k');
      var m := GrownClustersFirst(k', e, min);
      n := m + 1;
      LargerFrom(k, n - 1);
      forall j: nat | 0 < j < n ensures LargerTimes(k, j) * e < min {
        LargerFrom(k, j - 1);
      }
    }
  }

  function PutTable(d: Disk, at: nat, n: nat, table: seq<nat>): Disk {
    if n == 0 then d else PutTable(d, at, n - 1, table)[at + n - 1 := if n == 1 then RefTable(table) else RefTail(at)]
  }

  lemma {:induction false} PutTableAt(d: Disk, at: nat, n: nat, table: seq<nat>)
    ensures forall k: nat :: InRun(at, n, k) ==>
      k in PutTable(d, at, n, table) && PutTable(d, at, n, table)[k] == if k == at then RefTable(table) else RefTail(at)
    ensures forall k: nat :: !InRun(at, n, k) ==>
      (k in PutTable(d, at, n, table) <==> k in d) && (k in d ==> PutTable(d, at, n, table)[k] == d[k])
  {
    if n > 0 {
      PutTableAt(d, at, n - 1, table);
    }
  }

  /** The table now has m clusters and is stored at ta. */
  function Grown(st: Store, ta: nat, m: nat): Store
    requires m * st.e >= |st.table|
  {
    var table := st.table + Zeros(m * st.e - |st.table|);
    st.(table := table, tableAt := ta, d := PutTable(st.d, ta, m, table))
  }

  lemma GrownSize1(st: Store, ta: nat, m: nat)
    requires m * st.e >= |st.table|
    ensures |Grown(st, ta, m).table| == m * st.e && TableClusters(Grown(st, ta, m)) == m
    ensures forall t: nat :: Covered(Grown(st, ta, m), t) <==> Covered(st, t)
    ensures forall x: nat :: x != 0 ==> (x in Grown(st, ta, m).table <==> x in st.table)
  {
    DivUnique(m * st.e, st.e, m, 0);
    var table := st.table + Zeros(m * st.e - |st.table|);
    forall x: nat | x != 0 ensures x in table <==> x in st.table {
      if x in st.table {
        var t :| 0 <= t < |st.table| && st.table[t] == x;
        assert table[t] == x;
      }
    }
  }

  lemma GrownCount(st: Store, ta: nat, m: nat)
    requires BlocksOK(st) && m * st.e >= |st.table| && forall x: nat :: InRun(ta, m, x) ==> !IsMeta(st, x)
    ensures forall y: nat :: Count(Grown(st, ta, m), y) == Count(st, y)
    ensures forall x: nat :: IsMeta(Grown(st, ta, m), x) <==> InRun(ta, m, x) || (x != 0 && x in st.table)
  {
    var st' := Grown(st, ta, m);
    GrownSize1(st, ta, m);
    PutTableAt(st.d, ta, m, st'.table);
    forall y: nat ensures Count(st', y) == Count(st, y) {
      var t := Region(st.b, y);
      if Covered(st, t) {
        assert IsMeta(st, st.table[t]);
        assert !InRun(ta, m, st.table[t]);
      }
    }
  }

  lemma GrownInv(st: Store, ta: nat, m: nat)
    requires Inv(st) && m * st.e >= |st.table| && m > 0 && ta > 0 && ta + m <= st.free
    requires forall x: nat :: InRun(ta, m, x) ==> !IsMeta(st, x)
    ensures Inv(Grown(st, ta, m))
  {
    var st' := Grown(st, ta, m);
    GrownSize1(st, ta, m);
    GrownCount(st, ta, m);
    PutTableAt(st.d, ta, m, st'.table);
    forall t | 0 <= t < |st'.table| && st'.table[t] != 0 ensures IsBlock(st', st'.table[t]) {
      assert IsBlock(st, st.table[t]) && IsMeta(st, st.table[t]);
      assert !InRun(ta, m, st.table[t]);
    }
    forall k | ta < k < ta + m ensures k in st'.d && st'.d[k] == RefTail(ta) {
      assert InRun(ta, m, k);
    }
    assert InRun(ta, m, ta);
    if st.cacheAt != 0 {
      assert IsMeta(st, st.cacheAt) && !InRun(ta, m, st.cacheAt);
    }
  }

  /** Each cluster of the run loses a reference, and nothing else changes. */
  ghost predicate Released(st: Store, st': Store, at: nat, n: nat) {
    && SameTables(st, st') && Inv(st') && st'.free <= st.free
    && (forall x: nat :: Count(st', x) + B(InRun(at, n, x)) == Count(st, x))
    && (forall x: nat :: InRun(at, n, x) && Count(st', x) == 0 ==> st'.free <= x)
    && (forall x: nat :: x in st.d && !IsMeta(st, x) ==> x in st'.d && st'.d[x] == st.d[x])
  }

  /** A table cluster is no block. */
  lemma TableNotBlock(st: Store, x: nat)
    requires BlocksOK(st) && TableOK(st) && InRun(st.tableAt, TableClusters(st), x)
    ensures x == 0 || x !in st.table
  {
  }

  /** From the table before it grew (st) to the new one, counted (s2), and the old one, freed (s3). */
  lemma GrowAt(st: Store, s2: Store, ta: nat, m: nat, x: nat)
    requires Inv(st) && m * st.e >= |st.table| && AllFree(st, ta, m) && st.free <= ta
    requires Evolves(Grown(st, ta, m), s2, ta, m)
    ensures Count(s2, x) + B(IsMeta(st, x))
      == Count(st, x) + B(IsMeta(s2, x)) + B(InRun(st.tableAt, TableClusters(st), x))
    ensures InRun(st.tableAt, TableClusters(st), x) && Count(st, x) > 0 ==> Count(s2, x) > 0 && !IsMeta(s2, x)
    ensures IsMeta(s2, x) ==> IsMeta(st, x) || Count(st, x) == 0
    ensures x in st.d && Count(st, x) > 0 && !IsMeta(st, x) ==> x in s2.d && s2.d[x] == st.d[x] && !IsMeta(s2, x)
  {
    var gs := Grown(st, ta, m);
    forall y: nat | InRun(ta, m, y) ensures !IsMeta(st, y) {
      assert Count(st, y) == 0;
    }
    GrownCount(st, ta, m);
    PutTableAt(st.d, ta, m, gs.table);
    EvolvesAt(gs, s2, ta, m, x);
    if InRun(st.tableAt, TableClusters(st), x) {
      TableNotBlock(st, x);
    }
    assert IsMeta(s2, x) ==> IsMeta(gs, x) || Count(gs, x) == 0;
    assert InRun(ta, m, x) ==> Count(st, x) == 0;
  }

  lemma GrowSettles(st: Store, s2: Store, ta: nat, m: nat)
    requires Inv(st) && Settled(st) && m * st.e >= |st.table| && AllFree(st, ta, m) && st.free <= ta
    requires Evolves(Grown(st, ta, m), s2, ta, m)
    ensures Settled(s2)
    ensures forall x: nat :: InRun(st.tableAt, TableClusters(st), x) ==> Count(s2, x) > 0 && !IsMeta(s2, x) && x != 0
  {
    forall x: nat | IsMeta(s2, x) || x == 0 || InRun(st.tableAt, TableClusters(st), x) ensures Count(s2, x) > 0 {
      GrowAt(st, s2, ta, m, x);
    }
    forall x: nat | InRun(st.tableAt, TableClusters(st), x) ensures !IsMeta(s2, x) && x != 0 {
      GrowAt(st, s2, ta, m, x);
    }
  }

  lemma GrowEvolves(st: Store, s2: Store, s3: Store, ta: nat, m: nat)
    requires Inv(st) && m * st.e >= |st.table| && AllFree(st, ta, m) && st.free <= ta
    requires Evolves(Grown(st, ta, m), s2, ta, m) && Released(s2, s3, st.tableAt, TableClusters(st))
    ensures Evolves(st, s3, 0, 0)
  {
    SameMeta(s2, s3);
    forall x: nat
      ensures Count(s3, x) + B(IsMeta(st, x)) == Count(st, x) + B(IsMeta(s3, x)) + B(InRun(0, 0, x))
      ensures IsMeta(s3, x) ==> IsMeta(st, x) || Count(st, x) == 0
      ensures x in st.d && Count(st, x) > 0 && !IsMeta(st, x) ==> x in s3.d && s3.d[x] == st.d[x]
    {
      GrowAt(st, s2, ta, m, x);
      assert Count(s3, x) + B(InRun(st.tableAt, TableClusters(st), x)) == Count(s2, x);
    }
  }

  lemma SearchGrown(st: Store, st1: Store, s2: Store, ta: nat, m: nat)
    requires SameButSearch(st, st1) && m * st.e >= |st.table| && Evolves(Grown(st1, ta, m), s2, ta, m)
    ensures Evolves(Grown(st, ta, m), s2, ta, m)
  {
    var gs, gs1 := Grown(st, ta, m), Grown(st1, ta, m);
    assert SameButSearch(gs, gs1);
    SearchCount(gs, gs1);
    assert SameTables(gs, gs1);
    SameMeta(gs, gs1);
  }

  // ---------- When a run can be counted ----------

  predicate HasBlock(st: Store, c: nat) { Covered(st, Region(st.b, c)) }

  /** The free cluster the next block would take. */
  ghost function NextBlock(st: Store): nat { FirstFree(st, st.free) }

  /** The table must grow for region t, and grows into that same region, next to the run being counted. */
  ghost predicate GrowsInto(st: Store, t: nat) {
    Settled(st) && Region(st.b, st.free + GrownClusters(TableClusters(st), st.e, t + 1)) == t
  }

  /** Cluster c can be counted: its region has a block, or gets one that lies in the region it covers. */
  ghost predicate Countable(st: Store, c: nat) {
    var t := Region(st.b, c);
    if t < |st.table| then st.table[t] != 0 || Region(st.b, NextBlock(st)) == t
    else c < st.free && GrowsInto(st, t)
  }

  /** How far new metadata may reach when c is counted: one block, after a longer table if c needs one. */
  ghost function Reach(st: Store, c: nat): nat {
    NextBlock(st) + if Region(st.b, c) < |st.table| then 0
      else GrownClusters(TableClusters(st), st.e, Region(st.b, c) + 1)
  }

  /** The entries of the table once c has been counted. */
  function NewLength(st: Store, c: nat): nat {
    if Region(st.b, c) < |st.table| then |st.table|
      else GrownClusters(TableClusters(st), st.e, Region(st.b, c) + 1) * st.e
  }

  /** The same for each cluster of a run: only its last region may lack a block, and the search position must
      not have left that region. */
  ghost predicate RunCountable(st: Store, at: nat, n: nat) {
    n > 0 ==>
      var t := Region(st.b, at + n - 1);
      && (forall u :: Region(st.b, at) <= u < t ==> Covered(st, u))
      && (Covered(st, t)
          || (at + n <= st.free && if t < |st.table| then Region(st.b, st.free) == t else GrowsInto(st, t)))
  }

  lemma UncoveredFree(st: Store, c: nat)
    requires !Covered(st, Region(st.b, c))
    ensures Count(st, c) == 0 && FirstFree(st, c) == c
  {
  }

  lemma RunFirst(st: Store, at: nat, n: nat)
    requires RunCountable(st, at, n) && n > 0
    ensures Countable(st, at)
    ensures !Covered(st, Region(st.b, at)) ==> Region(st.b, at + n - 1) == Region(st.b, at)
  {
    var t := Region(st.b, at + n - 1);
    RegionMono(st.b, at, at + n - 1);
    if !Covered(st, Region(st.b, at)) && t < |st.table| {
      UncoveredFree(st, st.free);
    }
  }

  /** What counting one cluster leaves for the next: blocks stay, and the cluster's region has one. */
  ghost predicate Settles(st: Store, st': Store, c: nat) {
    && st'.b == st.b && Covered(st', Region(st.b, c)) && |st'.table| == NewLength(st, c) >= |st.table|
    && (forall u: nat :: Covered(st, u) ==> Covered(st', u))
    && (Covered(st, Region(st.b, c)) ==> SameTables(st, st') && st'.free == st.free)
    && (forall u: nat :: Covered(st', u) ==> Covered(st, u) || u == Region(st.b, c))
    && (st'.free <= st.free || st'.free <= RegionEnd(st.b, c)) && st'.free <= Reach(st, c) + 1
    && (forall x: nat :: IsMeta(st', x) ==> IsMeta(st, x) || st.free <= x <= Reach(st, c))
  }

  lemma RunNext(st: Store, st': Store, at: nat, n: nat)
    requires RunCountable(st, at, n) && n > 0 && Settles(st, st', at) && (Settled(st) ==> Settled(st'))
    ensures RunCountable(st', at + 1, n - 1)
  {
    if n > 1 {
      var t := Region(st.b, at + n - 1);
      RegionMono(st.b, at, at + 1);
      RegionMono(st.b, at + 1, at + n - 1);
      RunFirst(st, at, n);
    }
  }

  lemma EvolvesNone(st: Store, st': Store, at: nat, to: nat)
    requires Evolves(st, st', at, 0)
    ensures Evolves(st, st', to, 0)
  {
    forall x: nat ensures Count(st', x) + B(IsMeta(st, x)) == Count(st, x) + B(IsMeta(st', x)) + B(InRun(to, 0, x)) {
      EvolvesAt(st, st', at, 0, x);
    }
  }

  lemma FitIsFirst(st: Store, from: nat, at: nat)
    requires FirstFit(st, from, at, 1)
    ensures at == FirstFree(st, from)
  {
    var r := FirstFree(st, from);
    assert r < at ==> Blocked(st, r, 1);
    assert at < r ==> Count(st, at) > 0;
    assert Count(st, at) == 0;
  }

  lemma RunRoom(st: Store, st': Store, at: nat, i: nat, x: nat)
    requires Evolves(st, st', at, i) && !InRun(at, i, x) && Count(st, x) < MAX_COUNT
    ensures Count(st', x) < MAX_COUNT
  {
    EvolvesAt(st, st', at, i, x);
  }

  /** Counting c after a step that concerned metadata alone. */
  lemma EvolvesLast(st: Store, s2: Store, s3: Store, c: nat)
    requires Evolves(st, s2, 0, 0) && Recounted(s2, s3, c, Count(s2, c) + 1)
    ensures Evolves(st, s3, c, 1) && Inv(s3) && SameTables(s2, s3) && s3.free == s2.free
  {
    RecountedEvolves(s2, s3, c);
    EvolvesNone(st, s2, 0, c);
    EvolvesThen(st, s2, s3, c, 0, 1);
  }

  lemma MetaStays(st: Store, t: nat, o: nat, x: nat)
    requires t < |st.table| && st.table[t] == 0 && IsMeta(st, x)
    ensures IsMeta(NewBlock(st, t, o), x)
  {
    if x != 0 && x in st.table {
      var u :| 0 <= u < |st.table| && st.table[u] == x;
      assert NewBlock(st, t, o).table[u] == x;
    }
  }

  /** The block made for c's region lies in it. */
  lemma SelfCovered(st: Store, s2: Store, t: nat, o: nat, c: nat)
    requires Inv(st) && t == Region(st.b, c) && t < |st.table| && st.table[t] == 0 && o != 0 && Count(st, o) == 0
    requires o >= st.free
    requires Region(st.b, o) == t && Recounted(NewBlock(st, t, o), s2, o, 1)
    ensures forall x: nat :: IsMeta(s2, x) ==> IsMeta(st, x) || x == o
    ensures s2.b == st.b && s2.table == st.table[t := o] && s2.free == o + 1 && Inv(s2)
    ensures s2.cacheAt == o && Covered(s2, Region(s2.b, c)) && s2.table[Region(s2.b, c)] == o
    ensures Count(s2, c) == B(c == o) && Evolves(st, s2, 0, 0)
  {
    NewBlockEvolves(st, s2, t, o);
    NewBlockInv(st, t, o);
    UncoveredFree(st, c);
    SameMeta(NewBlock(st, t, o), s2);
    assert forall x: nat :: IsMeta(NewBlock(st, t, o), x) ==> IsMeta(st, x) || x == o;
    assert Count(NewBlock(st, t, o), c) == Count(st, c);
  }

  lemma SelfCoveredSettles(st: Store, s2: Store, s3: Store, t: nat, o: nat, c: nat)
    requires SameTables(s2, s3) && forall x: nat :: IsMeta(s2, x) ==> IsMeta(st, x) || x == o
    requires t == Region(st.b, c) && t < |st.table| && st.table[t] == 0 && o != 0 && Region(st.b, o) == t
    requires st.free <= o && o == NextBlock(st)
    requires s3.b == st.b && s3.table == st.table[t := o] && s3.free == o + 1
    ensures Settles(st, s3, c)
  {
    RegionSpan(st.b, o);
    SameMeta(s2, s3);
  }

  lemma RecountedSettles(st: Store, st': Store, c: nat)
    requires Recounted(st, st', c, Count(st, c) + 1)
    ensures Settles(st, st', c) && Inv(st')
  {
    SameMeta(st, st');
  }

  // ---------- Growing ----------

  /** Before growing for cluster c, the search position is in c's region. */
  lemma GrowRegion(st: Store, c: nat)
    requires Region(st.b, c) >= |st.table| && Countable(st, c)
    ensures Region(st.b, st.free) == Region(st.b, c) && GrowsInto(st, Region(st.b, c))
  {
    var m := GrownClusters(TableClusters(st), st.e, Region(st.b, c) + 1);
    RegionMono(st.b, c, st.free);
    RegionMono(st.b, st.free, st.free + m);
  }

  /** Beyond the table everything is free, so the new table goes right where the search stands. */
  lemma GrowPlace(st: Store, ta: nat, m: nat)
    requires Region(st.b, st.free) >= |st.table| && FirstFit(st, st.free, ta, m)
    ensures ta == st.free
  {
    if ta != st.free {
      assert Blocked(st, st.free, m);
      var x: nat :| InRun(st.free, m, x) && Count(st, x) > 0;
      RegionMono(st.b, st.free, x);
    }
  }

  lemma GrowRunFree(st: Store, s1: Store, ta: nat, m: nat)
    requires Inv(st) && SameButSearch(st, s1) && ta == st.free && AllFree(st, ta, m)
    ensures forall x: nat :: InRun(ta, m, x) ==> !IsMeta(s1, x) && Count(s1, x) == 0
    ensures ta > 0 || m == 0
  {
    SearchCount(st, s1);
    SameMeta(st, s1);
    forall x: nat | InRun(ta, m, x) ensures !IsMeta(s1, x) && Count(s1, x) == 0 {
      assert Count(st, x) == 0;
    }
    if m > 0 {
      assert Count(st, ta) == 0;
    }
  }

  lemma GrownFields(st: Store, ta: nat, m: nat)
    requires m * st.e >= |st.table|
    ensures Grown(st, ta, m).b == st.b && Grown(st, ta, m).free == st.free
  {
  }

  lemma GrownUnfold(k: nat, e: Pos, min: nat)
    ensures var k' := if k == 0 then 1 else (k * 3 + 1) / 2;
      GrownClusters(k, e, min) == if min <= k' * e then k' else GrownClusters(k', e, min)
  {
  }

  lemma LongEnough(m: nat, e: Pos, min: nat)
    requires m >= min
    ensures m * e >= min
  {
    MulMono(1, e, m);
  }

  lemma GrowRunnable(st: Store, ta: nat, m: nat, t: nat)
    requires m > 0 && st.free == ta + m && !Covered(st, t) && t < |st.table|
    requires Region(st.b, ta) == t == Region(st.b, ta + m)
    ensures RunCountable(st, ta, m)
  {
    hide Region, Settled, Covered;
    RegionMono(st.b, ta, ta + m - 1);
    RegionMono(st.b, ta + m - 1, ta + m);
  }

  /** The new table can be counted: the block for its region comes right after it. */
  lemma GrowReady(st: Store, s1: Store, ta: nat, m: nat, t: nat)
    requires Inv(st) && Inv(s1) && SameButSearch(st, s1) && s1.free == ta + m && ta == st.free && AllFree(st, ta, m)
    requires m > 0
    requires |st.table| <= t && Region(st.b, st.free) == t == Region(st.b, st.free + m) && t < m * st.e
    ensures var gs := Grown(s1, ta, m);
      && Inv(gs) && RunCountable(gs, ta, m) && |gs.table| == m * st.e
      && (forall x: nat :: InRun(ta, m, x) ==> Count(gs, x) < MAX_COUNT)
      && (forall u: nat :: Covered(gs, u) <==> Covered(st, u))
      && (forall x: nat :: IsMeta(gs, x) ==> InRun(ta, m, x) || (x != 0 && x in st.table))
  {
    hide Count, IsMeta, Grown, RunCountable, Region, Settled;
    GrowRunFree(st, s1, ta, m);
    GrownInv(s1, ta, m);
    GrownCount(s1, ta, m);
    GrownSize1(s1, ta, m);
    GrownFields(s1, ta, m);
    GrowRunnable(Grown(s1, ta, m), ta, m, t);
  }

  lemma GrowClear(st: Store, gs: Store, t: nat)
    requires t == Region(st.b, gs.free) && t >= |st.table| && gs.b == st.b
    requires forall u: nat :: Covered(gs, u) <==> Covered(st, u)
    ensures Clear0(gs)
  {
    UncoveredFree(gs, gs.free);
  }

  /** What counting a run leaves: blocks stay and every region of the run has one. */
  ghost predicate RunSettles(st: Store, st': Store, at: nat, n: nat) {
    && st'.b == st.b && |st'.table| >= |st.table|
    && (forall u: nat :: Covered(st, u) ==> Covered(st', u))
    && (forall x: nat :: InRun(at, n, x) ==> Covered(st', Region(st.b, x)))
    && (forall u: nat :: Covered(st', u) ==>
      Covered(st, u) || (n > 0 && Region(st.b, at) <= u <= Region(st.b, at + n - 1)))
    && (st'.free <= st.free || (n > 0 && st'.free <= RegionEnd(st.b, at + n - 1)))
    && (forall x: nat :: IsMeta(st', x) ==> IsMeta(st, x) || st.free <= x)
  }

  /** Nothing was allocated so far, unless the last region has its block by now; what was lies within reach. */
  ghost predicate Unmoved(st: Store, st': Store, last: nat) {
    && (Covered(st', Region(st.b, last)) || (SameTables(st, st') && st'.free == st.free))
    && (Covered(st, Region(st.b, last)) ==> SameTables(st, st') && st'.free == st.free)
    && st'.free <= Reach(st, last) + 1
    && (|st'.table| == |st.table| || |st'.table| == NewLength(st, last))
    && forall x: nat :: IsMeta(st', x) ==> IsMeta(st, x) || x <= Reach(st, last)
  }

  lemma UnmovedSame(st: Store, last: nat)
    ensures Unmoved(st, st, last)
  {
    hide Count, IsMeta, GrownClusters;
  }

  lemma RunSettlesThen(st: Store, s1: Store, s2: Store, at: nat, i: nat, n: nat)
    requires i < n && RunSettles(st, s1, at, i) && Settles(s1, s2, at + i) && RunCountable(s1, at + i, n - i)
    requires Unmoved(st, s1, at + n - 1)
    requires Evolves(st, s1, at, i)
    ensures RunSettles(st, s2, at, i + 1) && Unmoved(st, s2, at + n - 1)
  {
    hide IsMeta, Covered, RunCountable, TableClusters, Countable, Region, RegionEnd, Count, Evolves, Reach;
    RunFirst(s1, at + i, n - i);
    RegionMono(st.b, at, at + i);
    if i > 0 {
      RegionMono(st.b, at + i - 1, at + i);
    }
    if Covered(s1, Region(st.b, at + i)) {
      SameMeta(s1, s2);
    } else {
      SameReach(st, s1, at, i, n);
    }
    FreeStays(st.free, s1.free, s2.free, at, i, st.b);
  }

  /** Counting clusters before the search position does not change what lies within reach. */
  lemma SameReach(st: Store, s1: Store, at: nat, i: nat, n: nat)
    requires i < n && Evolves(st, s1, at, i) && RunCountable(s1, at + i, n - i) && Unmoved(st, s1, at + n - 1)
    requires !Covered(s1, Region(st.b, at + i)) && Region(st.b, at + n - 1) == Region(st.b, at + i)
    ensures Reach(s1, at + i) == Reach(st, at + n - 1) && NewLength(s1, at + i) == NewLength(st, at + n - 1)
  {
    hide IsMeta, Count, Region, GrowsInto;
    SameMeta(st, s1);
    forall y: nat | st.free <= y ensures Count(s1, y) == Count(st, y) {
      EvolvesAt(st, s1, at, i, y);
    }
    SameFirst(st, s1, st.free);
  }

  lemma SameFirst(st: Store, s1: Store, from: nat)
    requires forall y: nat :: from <= y ==> Count(s1, y) == Count(st, y)
    ensures FirstFree(s1, from) == FirstFree(st, from)
  {
    hide Count;
    var x, y := FirstFree(st, from), FirstFree(s1, from);
    assert x < y ==> Count(s1, x) > 0;
    assert y < x ==> Count(st, y) > 0;
  }

  lemma FreeStays(f: nat, f1: nat, f2: nat, at: nat, i: nat, b: Pos)
    requires f1 <= f || (i > 0 && f1 <= RegionEnd(b, at + i - 1))
    requires f2 <= f1 || f2 <= RegionEnd(b, at + i)
    ensures f2 <= f || f2 <= RegionEnd(b, at + i)
  {
    hide Region, RegionEnd;
    if i > 0 {
      RegionMono(b, at + i - 1, at + i);
    }
  }

  /** Counting c went well, and it does so exactly when c was countable. */
  ghost predicate Counted(st: Store, st': Store, c: nat) {
    && (Countable(st, c) <==> Inv(st') && Evolves(st, st', c, 1))
    && (Countable(st, c) ==> Settles(st, st', c))
    && (HasBlock(st, c) ==> Recounted(st, st', c, Count(st, c) + 1))
  }

  lemma CountRange(st: Store, c: nat)
    requires Inv(st)
    ensures Count(st, c) <= MAX_COUNT
  {
    if Covered(st, Region(st.b, c)) {
      assert IsBlock(st, st.table[Region(st.b, c)]);
    }
  }

  lemma FitFree(st: Store, ta: nat, m: nat)
    requires FirstFit(st, st.free, ta, m)
    ensures AllFree(st, ta, m)
  {
  }

  lemma BeyondSettles(st: Store, s1: Store, s2: Store, c: nat)
    requires Region(st.b, c) >= |st.table| && s1.b == st.b && Recounted(s1, s2, c, Count(s1, c) + 1)
    requires |s1.table| == NewLength(st, c) >= |st.table|
    requires Covered(s1, Region(st.b, c)) && (forall u: nat :: Covered(st, u) ==> Covered(s1, u))
    requires s1.free <= RegionEnd(st.b, c)
    requires forall u: nat :: Covered(s1, u) ==> Covered(st, u) || u == Region(st.b, c)
    requires (forall x: nat :: IsMeta(s1, x) ==> IsMeta(st, x) || st.free <= x <= Reach(st, c))
    requires s1.free <= Reach(st, c) + 1
    ensures Settles(st, s2, c)
  {
    SameMeta(s1, s2);
  }

  lemma GrowCovers(st: Store, gs: Store, s2: Store, s3: Store, ta: nat, m: nat, t: nat)
    requires m > 0 && gs.b == st.b && gs.free == ta + m && RunSettles(gs, s2, ta, m) && Unmoved(gs, s2, ta + m - 1)
    requires Released(s2, s3, st.tableAt, TableClusters(st)) && Clear0(gs) && t < |gs.table| == |s2.table|
    requires Region(st.b, ta + m) == Region(st.b, ta) == t && forall u: nat :: Covered(gs, u) <==> Covered(st, u)
    requires st.free <= ta && forall x: nat :: IsMeta(gs, x) ==> InRun(ta, m, x) || (x != 0 && x in st.table)
    ensures forall x: nat :: IsMeta(s3, x) ==> IsMeta(st, x) || st.free <= x <= ta + m
    ensures s3.b == st.b && Covered(s3, t) && |s3.table| == |gs.table| && s3.free <= (t + 1) * st.b
    ensures s3.free <= ta + m + 1 && forall u: nat :: Covered(s3, u) <==> Covered(st, u) || u == t
  {
    hide Inv, Count, Region;
    assert InRun(ta, m, ta);
    assert Covered(s2, t);
    SameMeta(s2, s3);
    RegionSpan(st.b, ta + m);
    RegionMono(st.b, ta, ta + m - 1);
    RegionMono(st.b, ta + m - 1, ta + m);
    assert NextBlock(gs) == ta + m;
  }

  /** The search position itself is free. */
  ghost predicate Clear0(st: Store) { Count(st, st.free) == 0 }

  lemma ReleasedNone(st: Store, at: nat)
    requires Inv(st)
    ensures Released(st, st, at, 0)
  {
  }

  lemma ReleasedRest(st: Store, s1: Store, at: nat, i: nat)
    requires Released(st, s1, at, i)
    ensures Count(s1, at + i) == Count(st, at + i) && IsMeta(s1, at + i) == IsMeta(st, at + i)
  {
    SameMeta(st, s1);
    assert Count(s1, at + i) + B(InRun(at, i, at + i)) == Count(st, at + i);
  }

  lemma ReleasedNext(st: Store, s1: Store, s2: Store, at: nat, i: nat)
    requires Released(st, s1, at, i) && Count(s1, at + i) > 0 && Recounted(s1, s2, at + i, Count(s1, at + i) - 1)
    ensures Released(st, s2, at, i + 1) && Inv(s2)
  {
    hide Inv, Count, Covered;
    SameMeta(st, s1);
    SameMeta(s1, s2);
    forall x: nat ensures Count(s2, x) + B(InRun(at, i + 1, x)) == Count(st, x) {
      assert Count(s1, x) + B(InRun(at, i, x)) == Count(st, x);
    }
    forall x: nat | x in st.d && !IsMeta(st, x) ensures x in s2.d && s2.d[x] == st.d[x] {
      assert !IsMeta(s1, x);
    }
  }

  lemma RecountedSettled(st: Store, st': Store, c: nat, n: nat)
    requires Settled(st) && Recounted(st, st', c, n) && (n > 0 || (!IsMeta(st, c) && c != 0))
    ensures Settled(st')
  {
    hide Inv, Count, IsMeta, Covered;
    SameMeta(st, st');
  }

  // ---------- Allocating ----------

  /** The search position has not passed a region without a block. */
  ghost predicate Ahead(st: Store) { forall t: nat :: !Covered(st, t) ==> st.free <= t * st.b }

  /** What holds between operations. */
  ghost predicate Ready(st: Store) { Inv(st) && Settled(st) && Ahead(st) && Prefix(st) }

  /** Blocks are made for one region after the other. */
  ghost predicate Prefix(st: Store) { forall t: nat, u: nat :: t <= u && Covered(st, u) ==> Covered(st, t) }

  predicate Full(st: Store) { forall t :: 0 <= t < |st.table| ==> st.table[t] != 0 }

  /** The clusters of the longer table, if the next block needs one. */
  function Longer(st: Store): nat { if Full(st) then GrownClusters(TableClusters(st), st.e, |st.table| + 1) else 0 }

  /** A run of n clusters and, should the table have to grow, the longer table fit in one region. */
  predicate Fits(st: Store, n: nat) { n + Longer(st) < st.b }

  /** A search cannot pass a region without a block when the run sought fits in it. */
  lemma UncoveredFits(st: Store, at: nat, n: nat, u: nat)
    requires !Covered(st, u) && n <= st.b && st.free <= u * st.b && FirstFit(st, st.free, at, n)
    ensures at <= u * st.b
  {
    if at > u * st.b {
      assert Blocked(st, u * st.b, n);
      var x: nat :| InRun(u * st.b, n, x) && Count(st, x) > 0;
      DivUnique(x, st.b, u, x - u * st.b);
    }
  }

  lemma AllocCountable(st: Store, s1: Store, at: nat, n: nat)
    requires Ready(st) && 0 < n && Fits(st, n) && FirstFit(st, st.free, at, n)
    requires SameButSearch(st, s1) && s1.free == at + n
    ensures RunCountable(s1, at, n)
  {
    hide Inv, Count, FirstFit, GrownClusters, GrowsInto, Settled, Ready, Fits, Region, RegionEnd;
    var t := Region(st.b, at + n - 1);
    RegionSpan(st.b, at + n - 1);
    forall u | Region(st.b, at) <= u < t ensures Covered(s1, u) {
      if !Covered(st, u) {
        RunStartsBy(st, at, n, u);
        MulMono(u + 1, t, st.b);
      }
    }
    if !Covered(st, t) {
      RunStartsBy(st, at, n, t);
      InRegion(st.b, at + n, t);
      if t >= |st.table| {
        AllocGrows(st, s1, at, n, t);
      }
    }
  }

  lemma RunStartsBy(st: Store, at: nat, n: nat, u: nat)
    requires Ready(st) && Fits(st, n) && FirstFit(st, st.free, at, n) && !Covered(st, u)
    ensures at <= u * st.b && n < st.b
  {
    hide Inv, Count, FirstFit, Settled;
    UncoveredFits(st, at, n, u);
  }

  /** A run that ends past z * b, but starts no later, ends in region z, and so do the m clusters after it. */
  lemma LastRegion(at: nat, n: nat, m: nat, z: nat, t: nat, b: Pos)
    requires at <= z * b && n > 0 && n + m < b && t == Region(b, at + n - 1) && t >= z
    ensures t == z && Region(b, at + n + m) == z
  {
    MulMono(z, t, b);
    InRegion(b, at + n - 1, z);
    InRegion(b, at + n + m, z);
  }

  lemma AllocGrows(st: Store, s1: Store, at: nat, n: nat, t: nat)
    requires Ready(st) && 0 < n && Fits(st, n) && FirstFit(st, st.free, at, n) && SameButSearch(st, s1)
    requires s1.free == at + n
    requires t == Region(st.b, at + n - 1) && t >= |st.table|
    ensures GrowsInto(s1, t)
  {
    hide Inv, Count, FirstFit, GrownClusters, Settled, IsMeta, Ahead;
    var z := |st.table|;
    RunStartsBy(st, at, n, z);
    forall u | 0 <= u < z ensures st.table[u] != 0 {
      if st.table[u] == 0 {
        RunStartsBy(st, at, n, u);
        LastRegion(at, n, 0, u, t, st.b);
      }
    }
    LastRegion(at, n, GrownClusters(TableClusters(st), st.e, z + 1), z, t, st.b);
    SearchSettled(st, s1);
  }

  lemma SearchSettled(st: Store, s1: Store)
    requires SameButSearch(st, s1) && Settled(st)
    ensures Settled(s1)
  {
    hide Count, IsMeta;
    SearchCount(st, s1);
    SameMeta(st, s1);
  }

  lemma AllocAhead(st: Store, s1: Store, s2: Store, at: nat, n: nat)
    requires Ready(st) && 0 < n && Fits(st, n) && FirstFit(st, st.free, at, n)
    requires SameButSearch(st, s1) && s1.free == at + n && RunSettles(s1, s2, at, n)
    ensures Ahead(s2) && Prefix(s2)
  {
    hide Inv, Count, FirstFit, GrownClusters, Settled, Ready, Fits, IsMeta, Region;
    RegionSpan(st.b, at + n - 1);
    forall u: nat | !Covered(s2, u) ensures s2.free <= u * st.b && u > Region(st.b, at + n - 1) {
      AllocPast(st, s1, s2, at, n, u);
    }
    forall u: nat, v: nat | u <= v && Covered(s2, v) ensures Covered(s2, u) {
      if !Covered(s2, u) {
        AllocPrefix(st, u, v);
      }
    }
  }

  lemma AllocPast(st: Store, s1: Store, s2: Store, at: nat, n: nat, u: nat)
    requires Ready(st) && 0 < n && Fits(st, n) && FirstFit(st, st.free, at, n) && !Covered(s2, u)
    requires SameButSearch(st, s1) && s1.free == at + n && RunSettles(s1, s2, at, n)
    ensures s2.free <= u * st.b && u > Region(st.b, at + n - 1)
  {
    hide Inv, Count, FirstFit, GrownClusters, Settled, Ready, Fits, IsMeta, Region;
    var t := Region(st.b, at + n - 1);
    RegionSpan(st.b, at + n - 1);
    RunStartsBy(st, at, n, u);
    if u <= t {
      AllocTouches(st, s2, at, n, u);
    }
    MulMono(t + 1, u, st.b);
  }

  lemma AllocPrefix(st: Store, u: nat, v: nat)
    requires Ready(st) && u <= v && !Covered(st, u)
    ensures !Covered(st, v)
  {
    hide Inv, Settled, Ahead;
  }

  lemma AllocTouches(st: Store, s2: Store, at: nat, n: nat, u: nat)
    requires n > 0 && at <= u * st.b && u <= Region(st.b, at + n - 1) && forall x: nat :: InRun(at, n, x) ==>
      Covered(s2, Region(st.b, x))
    ensures Covered(s2, u)
  {
    MulMono(u, Region(st.b, at + n - 1), st.b);
    InRegion(st.b, u * st.b, u);
    assert InRun(at, n, u * st.b);
  }

  lemma AllocRoom(st: Store, s1: Store, at: nat, n: nat)
    requires SameButSearch(st, s1) && FirstFit(st, st.free, at, n)
    ensures forall x: nat :: InRun(at, n, x) ==> Count(s1, x) < MAX_COUNT
  {
    SearchCount(st, s1);
    forall x: nat | InRun(at, n, x) ensures Count(st, x) == 0 {}
  }

  lemma AllocDone(st: Store, s1: Store, s2: Store, at: nat, n: nat)
    requires Inv(st) && Settled(st) && SameButSearch(st, s1) && FirstFit(st, st.free, at, n) && s1.free == at + n
    requires Evolves(s1, s2, at, n) && RunSettles(s1, s2, at, n)
    ensures Evolves(st, s2, at, n) && Settled(s2) && forall x: nat :: InRun(at, n, x) ==> !IsMeta(s2, x)
  {
    hide Count, IsMeta, TableClusters;
    SearchCount(st, s1);
    assert SameTables(st, s1);
    SameMeta(st, s1);
    EvolvesSettled(st, s2, at, n);
    forall x: nat | InRun(at, n, x) ensures !IsMeta(s2, x) {
      assert Count(st, x) == 0;
      assert !IsMeta(st, x);
    }
  }

  lemma ReleasedReady(st: Store, st': Store, at: nat, n: nat)
    requires Inv(st) && Settled(st) && Prefix(st) && Released(st, st', at, n)
    requires forall x: nat :: InRun(at, n, x) ==> !IsMeta(st, x) && x != 0
    requires Ahead(st) || exists x: nat :: InRun(at, n, x) && Count(st, x) == 1
    ensures Ready(st')
  {
    hide Count, IsMeta, Inv, Region;
    SameMeta(st, st');
    assert Count(st', 0) + B(InRun(at, n, 0)) == Count(st, 0);
    forall x: nat | IsMeta(st', x) ensures Count(st', x) > 0 {
      assert Count(st', x) + B(InRun(at, n, x)) == Count(st, x);
    }
    forall t: nat, u: nat | t <= u && Covered(st', u) ensures Covered(st', t) {
      assert Covered(st, u) && Covered(st, t);
    }
    forall t: nat | !Covered(st', t) ensures st'.free <= t * st'.b {
      assert !Covered(st, t);
      if !Ahead(st) {
        var x: nat :| InRun(at, n, x) && Count(st, x) == 1;
        assert Count(st', x) == 0;
        CountedBelow(st, x, t);
      }
    }
  }

  /** What is counted lies before any region without a block. */
  lemma CountedBelow(st: Store, x: nat, t: nat)
    requires Prefix(st) && Count(st, x) > 0 && !Covered(st, t)
    ensures x < t * st.b
  {
    RegionSpan(st.b, x);
    assert Covered(st, Region(st.b, x));
    MulMono(Region(st.b, x) + 1, t, st.b);
  }

  lemma RecountedCache(st: Store, s1: Store, s2: Store, c: nat, n: nat)
    requires SameButCache(st, s1) && Recounted(s1, s2, c, n)
    ensures Recounted(st, s2, c, n)
  {
    hide Inv;
    SearchCount(st, s1);
  }

  lemma CachedCount(st: Store, c: nat)
    requires Inv(st) && Covered(st, Region(st.b, c)) && st.cacheAt == st.table[Region(st.b, c)]
    ensures c % st.b < |st.cache| && c % st.b < |BlockAt(st.d, st.cacheAt)| && st.cache[c % st.b] == Count(st, c)
  {
    assert IsBlock(st, st.cacheAt);
  }

  // ---------- A new image ----------

  function FreshStore(b: Pos, e: Pos, d: Disk, n: nat): Store {
    var table := [n + 2] + Zeros(e - 1);
    var block := seq(b, i => if i < n + 3 then 1 else 0);
    Store(b, e, d[n + 1 := RefTable(table)][n + 2 := RefBlock(block)], n + 1, table, 0, [], 0)
  }

  lemma FreshReady(b: Pos, e: Pos, d: Disk, n: nat)
    requires n + 3 <= b
    ensures Ready(FreshStore(b, e, d, n)) && forall c: nat :: Count(FreshStore(b, e, d, n), c) == B(c < n + 3)
  {
    var st := FreshStore(b, e, d, n);
    DivUnique(e, e, 1, 0);
    forall c: nat ensures Count(st, c) == B(c < n + 3) {
      if c < b {
        InRegion(b, c, 0);
        DivUnique(c, b, 0, c);
      } else {
        RegionMono(b, b, c);
        InRegion(b, b, 1);
      }
    }
  }
}

/**
 The refcount store behind the image engine. The engine never looks into the clusters of refcount metadata: it knows
 which clusters they are and what the store counts, and lends the store the file when it allocates.
 */
module RefcountLink {
  import opened Qcow2Format
  import opened Qcow2State
  import opened Qcow2Steps
  import opened RefcountState
  import opened RefcountSteps
  import opened RefcountTally
  import opened RefcountRuns
  import opened RefcountAlloc
  import opened RefcountRoom

  // ---------- What the store holds ----------

  /** All counts as a map. */
  function CountMap(st: Store): map<nat, nat> { map c: nat | c < |st.table| * st.b :: Count(st, c) }

  lemma CountMapAt(st: Store)
    ensures forall c: nat :: CountOf(CountMap(st), c) == Count(st, c)
  {
    hide Count;
    forall c: nat ensures CountOf(CountMap(st), c) == Count(st, c) {
      if c >= |st.table| * st.b && Count(st, c) > 0 {
        CountBelow(st, c);
      }
    }
  }

  function MetaSet(st: Store): set<nat> {
    (set k: nat | st.tableAt <= k < st.tableAt + TableClusters(st) && InRun(st.tableAt, TableClusters(st), k))
      + (set x | x in st.table && x != 0)
  }

  lemma MetaSetIs(st: Store)
    ensures forall c: nat :: c in MetaSet(st) <==> IsMeta(st, c)
  {
  }

  lemma MetaRefcounting(st: Store, x: nat)
    requires Inv(st) && IsMeta(st, x)
    ensures x in st.d && st.d[x].Refcounting()
  {
    if x != 0 && x in st.table {
      var t :| 0 <= t < |st.table| && st.table[t] == x;
      assert IsBlock(st, st.table[t]);
    }
  }

  /** The store is in order, holds these counts and this metadata, and has room for `budget` clusters more. */
  ghost predicate Backs(g: Geometry, cnt: map<nat, nat>, meta: set<nat>, st: Store, limit: nat, budget: nat) {
    && Ready(st) && Mirrors(g, cnt, meta, st) && Room(st, limit, budget)
  }

  ghost predicate Mirrors(g: Geometry, cnt: map<nat, nat>, meta: set<nat>, st: Store) {
    && st.b == g.BlockSize() && st.e == g.L2Size()
    && (forall c: nat :: CountOf(cnt, c) == Count(st, c))
    && (forall c: nat :: c in meta <==> IsMeta(st, c))
  }

  // ---------- Lending the file ----------

  /** The file as the engine has it, with the store's own clusters in place. */
  function Lent(st: Store, d: Disk): Store {
    var own := MetaSet(st);
    st.(d := d + (map c | c in own && c in st.d :: st.d[c]))
  }

  lemma LentSame(st: Store, d: Disk)
    requires Inv(st)
    ensures Inv(Lent(st, d)) && SameTables(st, Lent(st, d)) && Lent(st, d).free == st.free
    ensures forall c: nat :: Count(Lent(st, d), c) == Count(st, c)
    ensures forall c: nat :: c in d && !IsMeta(st, c) ==> c in Lent(st, d).d && Lent(st, d).d[c] == d[c]
  {
    hide Count, IsMeta, Lent, BlocksOK, TableOK, CacheOK;
    LentContent(st, d);
    LentBlocks(st, Lent(st, d));
    LentTable(st, Lent(st, d));
    SameMeta(st, Lent(st, d));
  }

  lemma LentContent(st: Store, d: Disk)
    requires Inv(st)
    ensures Lent(st, d) == st.(d := Lent(st, d).d)
    ensures forall c: nat :: IsMeta(st, c) ==> c in Lent(st, d).d && c in st.d && Lent(st, d).d[c] == st.d[c]
    ensures forall c: nat :: c in d && !IsMeta(st, c) ==> c in Lent(st, d).d && Lent(st, d).d[c] == d[c]
  {
    hide IsMeta, Inv, MetaSet;
    MetaSetIs(st);
    forall c: nat | IsMeta(st, c) ensures c in Lent(st, d).d && c in st.d && Lent(st, d).d[c] == st.d[c] {
      MetaRefcounting(st, c);
    }
  }

  lemma LentTable(st: Store, st': Store)
    requires TableOK(st) && st' == st.(d := st'.d)
    requires forall c: nat :: IsMeta(st, c) ==> c in st'.d && c in st.d && st'.d[c] == st.d[c]
    ensures TableOK(st')
  {
    assert IsMeta(st, st.tableAt);
    forall k | st.tableAt < k < st.tableAt + TableClusters(st) ensures k in st'.d && st'.d[k] == RefTail(st.tableAt) {
      assert IsMeta(st, k);
    }
  }

  lemma LentBlocks(st: Store, st': Store)
    requires BlocksOK(st) && CacheOK(st) && st' == st.(d := st'.d)
    requires forall c: nat :: IsMeta(st, c) ==> c in st'.d && c in st.d && st'.d[c] == st.d[c]
    ensures BlocksOK(st') && CacheOK(st') && forall c: nat :: Count(st', c) == Count(st, c)
  {
    forall t: nat | t < |st.table| && st.table[t] != 0
      ensures IsBlock(st', st.table[t]) && BlockAt(st'.d, st.table[t]) == BlockAt(st.d, st.table[t])
    {
      assert IsMeta(st, st.table[t]);
      assert IsBlock(st, st.table[t]);
    }
    forall c: nat ensures Count(st', c) == Count(st, c) {
      if Covered(st, Region(st.b, c)) {
        assert BlockAt(st'.d, st.table[Region(st.b, c)]) == BlockAt(st.d, st.table[Region(st.b, c)]);
      }
    }
  }

  lemma LentReady(g: Geometry, cnt: map<nat, nat>, meta: set<nat>, st: Store, limit: nat, budget: nat, d: Disk)
    requires Backs(g, cnt, meta, st, limit, budget)
    ensures Backs(g, cnt, meta, Lent(st, d), limit, budget)
  {
    hide Count, IsMeta, Inv, Room;
    var st' := Lent(st, d);
    LentSame(st, d);
    SameMeta(st, st');
    forall t: nat ensures Covered(st', t) <==> Covered(st, t) {}
    RoomSame(st, st', limit, budget);
  }

  /** The image once the store has changed the file. */
  function Synced(s: Img, st: Store): Img { s.(d := st.d, cnt := CountMap(st), meta := MetaSet(st)) }

  lemma SyncedMirrors(g: Geometry, st: Store)
    requires st.b == g.BlockSize() && st.e == g.L2Size()
    ensures Mirrors(g, CountMap(st), MetaSet(st), st)
  {
    CountMapAt(st);
    MetaSetIs(st);
  }

  // ---------- What the engine asks for ----------

  /** An allocation by the store is one in the sense of the image engine. */
  lemma StoreAllocates(g: Geometry, s: Img, st: Store, st1: Store, st': Store, at: nat, n: nat)
    requires Mirrors(g, s.cnt, s.meta, st) && Ready(st) && st1 == Lent(st, s.d)
    requires Inv(st') && Evolves(st1, st', at, n) && AllFree(st1, at, n)
    requires forall x: nat :: InRun(at, n, x) ==> !IsMeta(st', x)
    ensures Allocated(s, Synced(s, st'), at, n)
  {
    hide Count, IsMeta, Inv, Evolves, CountMap, MetaSet, Lent, Settled, Ahead, Prefix;
    LentSame(st, s.d);
    SameMeta(st, st1);
    CountMapAt(st');
    MetaSetIs(st');
    forall c: nat
      ensures Count(st', c) + B(c in s.meta) == CountOf(s.cnt, c) + B(c in MetaSet(st')) + B(InRun(at, n, c))
      ensures Count(st', c) <= CountOf(s.cnt, c) || Count(st', c) == 1
      ensures InRun(at, n, c) ==> CountOf(s.cnt, c) == 0 && c !in s.meta && c !in MetaSet(st')
      ensures c in s.d && CountOf(s.cnt, c) > 0 && c !in s.meta ==> c in st'.d && st'.d[c] == s.d[c]
    {
      EvolvesMore(st1, st', at, n, c);
      SettledAt(st, c);
      if InRun(at, n, c) {
        assert Count(st1, c) == 0;
      }
    }
    forall c | c in MetaSet(st') ensures c in st'.d && st'.d[c].Refcounting() {
      MetaRefcounting(st', c);
    }
  }

  lemma SettledAt(st: Store, c: nat)
    requires Settled(st)
    ensures IsMeta(st, c) ==> Count(st, c) > 0
  {
  }

  lemma RunBacks(g: Geometry, cnt: map<nat, nat>, meta: set<nat>, st: Store, limit: nat, budget: nat, n: nat)
    requires Backs(g, cnt, meta, st, limit, budget) && Ample(g.L2Size(), g.BlockSize(), limit, n)
    ensures Fits(st, n) && TableClusters(st) > 0
  {
    RoomFits(st, limit, budget, n);
  }

  lemma AllocBacks(g: Geometry, cnt: map<nat, nat>, meta: set<nat>, st: Store, st': Store, limit: nat, budget: nat,
      at: nat, n: nat)
    requires Backs(g, cnt, meta, st, limit, budget) && n + 1 <= budget && FirstFit(st, st.free, at, n)
    requires TableClusters(st) > 0
    requires Ready(st') && Evolves(st, st', at, n) && Within(st, st', at, n)
    ensures Backs(g, CountMap(st'), MetaSet(st'), st', limit, budget - n - 1)
  {
    hide Count, IsMeta, Inv, Evolves, CountMap, MetaSet, Settled, Ahead, Prefix, Room, FirstFit, Within;
    EvolvesSizes(st, st', at, n);
    SyncedMirrors(g, st');
    RoomAlloc(st, st', at, n, limit, budget);
  }

  /** The engine keeps its view of the metadata while counts change. */
  lemma CountsBack(g: Geometry, cnt: map<nat, nat>, meta: set<nat>, st: Store, st': Store, limit: nat, budget: nat)
    requires Mirrors(g, cnt, meta, st) && Room(st, limit, budget) && SameTables(st, st') && Ready(st')
    requires st'.free <= st.free
    requires forall c: nat :: Count(st, c) == 0 ==> Count(st', c) == 0
    ensures Backs(g, CountMap(st'), meta, st', limit, budget)
  {
    hide Count, IsMeta, Inv, CountMap, Settled, Ahead, Prefix, Room;
    SameMeta(st, st');
    CountMapAt(st');
    RoomSame(st, st', limit, budget);
  }

  lemma StoreFrees(g: Geometry, cnt: map<nat, nat>, meta: set<nat>, st: Store, st': Store, limit: nat, budget: nat,
      at: nat, n: nat)
    requires Mirrors(g, cnt, meta, st) && Room(st, limit, budget) && Ready(st') && Released(st, st', at, n)
    ensures Backs(g, CountMap(st'), meta, st', limit, budget) && Freed(cnt, CountMap(st'), at, n)
  {
    hide Count, IsMeta, Inv, CountMap, Settled, Ahead, Prefix, Room, Mirrors;
    CountMapAt(st');
    forall c: nat ensures CountOf(CountMap(st'), c) + B(InRun(at, n, c)) == CountOf(cnt, c) {
      MirrorsAt(g, cnt, meta, st, c);
      ReleasedAt(st, st', at, n, c);
    }
    forall c: nat | Count(st, c) == 0 ensures Count(st', c) == 0 {
      ReleasedAt(st, st', at, n, c);
    }
    CountsBack(g, cnt, meta, st, st', limit, budget);
  }

  lemma MirrorsSizes(g: Geometry, cnt: map<nat, nat>, meta: set<nat>, st: Store)
    requires Mirrors(g, cnt, meta, st)
    ensures st.b == g.BlockSize() && st.e == g.L2Size()
  {
  }

  /** Two bytes a count, eight an address. */
  lemma BacksSizes(g: Geometry, cnt: map<nat, nat>, meta: set<nat>, st: Store, limit: nat, budget: nat)
    requires Backs(g, cnt, meta, st, limit, budget)
    ensures 2 * st.b == 512 * g.cs && 8 * st.e == 512 * g.cs
  {
  }

  lemma MirrorsAt(g: Geometry, cnt: map<nat, nat>, meta: set<nat>, st: Store, c: nat)
    requires Mirrors(g, cnt, meta, st)
    ensures CountOf(cnt, c) == Count(st, c) && (c in meta <==> IsMeta(st, c))
  {
  }

  lemma ReleasedAt(st: Store, st': Store, at: nat, n: nat, c: nat)
    requires Released(st, st', at, n)
    ensures Count(st', c) + B(InRun(at, n, c)) == Count(st, c)
  {
  }

  /** One count, not zero, goes up or down by one. */
  lemma StoreRecounts(g: Geometry, cnt: map<nat, nat>, meta: set<nat>, st: Store, st': Store, limit: nat, budget: nat,
      c: nat, n: nat)
    requires Backs(g, cnt, meta, st, limit, budget) && Count(st, c) > 0 && Recounted(st, st', c, n)
    requires (n > 0 || (!IsMeta(st, c) && c != 0))
    ensures Backs(g, CountMap(st'), meta, st', limit, budget)
    ensures forall x: nat :: CountOf(CountMap(st'), x) == if x == c then n else CountOf(cnt, x)
  {
    hide Count, IsMeta, CountMap, Settled, Room, Mirrors, Inv;
    CountMapAt(st');
    RecountedRest(st, st', c, n);
    RecountedSettled(st, st', c, n);
    RecountedOrder(st, st', c, n);
    forall x: nat ensures CountOf(CountMap(st'), x) == if x == c then n else CountOf(cnt, x) {
      MirrorsAt(g, cnt, meta, st, x);
    }
    CountsBack(g, cnt, meta, st, st', limit, budget);
  }

  lemma RecountedOrder(st: Store, st': Store, c: nat, n: nat)
    requires Recounted(st, st', c, n) && Ahead(st) && Prefix(st)
    ensures Ahead(st') && Prefix(st') && st'.free <= st.free && SameTables(st, st')
  {
    hide Count, Inv;
    forall t: nat ensures Covered(st', t) <==> Covered(st, t) {}
    forall t: nat | !Covered(st', t) ensures st'.free <= t * st'.b {
      assert !Covered(st, t);
    }
    forall t: nat, u: nat | t <= u && Covered(st', u) ensures Covered(st', t) {
      assert Covered(st, u) && Covered(st, t);
    }
  }

  /** A count that is looked up. */
  lemma LookBacks(g: Geometry, cnt: map<nat, nat>, meta: set<nat>, st: Store, st': Store, limit: nat, budget: nat)
    requires Backs(g, cnt, meta, st, limit, budget) && Inv(st') && SameButCache(st, st')
    ensures Backs(g, cnt, meta, st', limit, budget)
  {
    hide Count, IsMeta, Inv, Room;
    SearchCount(st, st');
    SameMeta(st, st');
    SearchSettled(st, st');
    RoomSame(st, st', limit, budget);
    forall t: nat ensures Covered(st', t) <==> Covered(st, t) {}
  }

  /** An allocation of no clusters moves the search position alone. */
  lemma SkipMirrors(g: Geometry, cnt: map<nat, nat>, meta: set<nat>, st: Store, st': Store, limit: nat, budget: nat)
    requires Backs(g, cnt, meta, st, limit, budget) && budget > 0 && SameButSearch(st, st')
    requires st'.free == NextBlock(st) + 1
    ensures Mirrors(g, cnt, meta, st') && Room(st', limit, budget - 1) && Prefix(st')
  {
    hide Count, IsMeta, Inv, Room;
    SearchCount(st, st');
    SameMeta(st, st');
    RoomSkip(st, st', limit, budget);
    forall t: nat ensures Covered(st', t) <==> Covered(st, t) {}
  }

  /** The count of a cluster in use can be changed in place. */
  lemma CountedStays(st: Store, c: nat)
    requires Inv(st) && Count(st, c) > 0
    ensures Stays(st, c) && HasBlock(st, c)
  {
    InvLoose(st);
    CoveredStays(st, c);
  }

  lemma AllocatedNone(s: Img, at: nat)
    requires forall c :: c in s.meta ==> c in s.d && s.d[c].Refcounting()
    ensures Allocated(s, s, at, 0)
  {
  }

  lemma FreeReady(g: Geometry, cnt: map<nat, nat>, meta: set<nat>, st: Store, at: nat, n: nat)
    requires Mirrors(g, cnt, meta, st) && forall c: nat :: InRun(at, n, c) ==>
      CountOf(cnt, c) > 0 && c !in meta && c != 0
    ensures forall x: nat :: InRun(at, n, x) ==> Count(st, x) > 0 && !IsMeta(st, x) && x != 0
    ensures (exists c: nat :: InRun(at, n, c) && CountOf(cnt, c) == 1) ==>
      exists x: nat :: InRun(at, n, x) && Count(st, x) == 1
  {
    hide Count, IsMeta;
    if c: nat :| InRun(at, n, c) && CountOf(cnt, c) == 1 {
      assert Count(st, c) == 1;
    }
  }

  lemma BackedAhead(g: Geometry, cnt: map<nat, nat>, meta: set<nat>, st: Store, limit: nat, budget: nat)
    requires Backs(g, cnt, meta, st, limit, budget)
    ensures Inv(st) && Settled(st) && Prefix(st) && Ahead(st) && Mirrors(g, cnt, meta, st) && Room(st, limit, budget)
  {
  }
}

/**
 How far the file may grow. Every allocation of n clusters costs n + 1 of a budget: the run and, perhaps, a refcount
 block. What longer refcount tables will take is set aside.
 */
module RefcountRoom {
  import opened Arith
  import opened Qcow2Format
  import opened RefcountState
  import opened RefcountSteps
  import opened RefcountTally
  import opened RefcountAlloc

  /** The clusters that a refcount table of k clusters covers. */
  function Span(k: nat, e: Pos, b: Pos): nat { k * e * b }

  /** The clusters of the table that takes over from one of k clusters. */
  function NextTable(k: nat, e: Pos): (m: nat)
    ensures m > k
  {
    GrownClusters(k, e, k * e + 1)
  }

  lemma SpanGrows(k: nat, m: nat, e: Pos, b: Pos)
    requires k < m
    ensures Span(k, e, b) < Span(m, e, b)
  {
    MulMono(k + 1, m, e);
    assert (k + 1) * e == k * e + e;
    MulMono(k * e + 1, m * e, b);
    assert (k * e + 1) * b == k * e * b + b;
  }

  /** The clusters of all tables still to come, until one covers `limit` clusters. */
  function Reserve(k: nat, e: Pos, b: Pos, limit: nat): nat
    decreases limit - Span(k, e, b)
  {
    if Span(k, e, b) >= limit then 0
    else SpanGrows(k, NextTable(k, e), e, b); NextTable(k, e) + Reserve(NextTable(k, e), e, b, limit)
  }

  /** Up to `limit`, n clusters fit in one region together with the longer table that may be needed. */
  ghost predicate Ample(e: Pos, b: Pos, limit: nat, n: nat) {
    forall k: nat :: Span(k, e, b) < limit + b ==> n + NextTable(k, e) < b
  }

  lemma AmpleLess(e: Pos, b: Pos, limit: nat, n: nat, m: nat)
    requires Ample(e, b, limit, n) && m <= n
    ensures Ample(e, b, limit, m)
  {
  }

  /** From cluster h on nothing is in use. */
  ghost predicate Mark(st: Store, h: nat) {
    && (forall c: nat :: h <= c ==> Count(st, c) == 0) && st.free <= h
    && (forall t: nat :: Covered(st, t) ==> t * st.b < h)
  }

  ghost predicate Room(st: Store, limit: nat, budget: nat) {
    && |st.table| == TableClusters(st) * st.e
    && exists h: nat :: Mark(st, h) && h + Reserve(TableClusters(st), st.e, st.b, limit) + budget <= limit
  }

  lemma RoomFits(st: Store, limit: nat, budget: nat, n: nat)
    requires Room(st, limit, budget) && Ample(st.e, st.b, limit, n) && TableClusters(st) > 0
    ensures Fits(st, n)
  {
    hide Count, Reserve;
    assert Span(0, st.e, st.b) == 0;
    if Full(st) {
      var h: nat :| Mark(st, h) && h + Reserve(TableClusters(st), st.e, st.b, limit) + budget <= limit;
      MulMono(1, TableClusters(st), st.e);
      assert Covered(st, |st.table| - 1);
      assert (|st.table| - 1) * st.b == |st.table| * st.b - st.b;
      assert Span(TableClusters(st), st.e, st.b) < limit + st.b;
    }
  }

  lemma RoomLess(st: Store, limit: nat, budget: nat, less: nat)
    requires Room(st, limit, budget) && less <= budget
    ensures Room(st, limit, less)
  {
    hide Mark, Reserve;
  }

  // ---------- Measuring ----------

  /** There is room for n clusters in runs of at most `run`, however far the file may grow for it. */
  ghost predicate RoomFor(st: Store, n: nat, run: nat) {
    exists limit: nat :: Room(st, limit, n) && Ample(st.e, st.b, limit, run)
  }

  /** From cluster h on nothing is in use, as the table shows. */
  predicate Vacant(st: Store, h: nat) {
    && (forall c: nat | h <= c < |st.table| * st.b :: Count(st, c) == 0) && st.free <= h
    && (forall t: nat | t < |st.table| :: st.table[t] != 0 ==> t * st.b < h)
  }

  lemma VacantMarks(st: Store, h: nat)
    ensures Vacant(st, h) <==> Mark(st, h)
  {
    hide Count;
    if Vacant(st, h) {
      forall c: nat | h <= c ensures Count(st, c) == 0 {
        if Count(st, c) > 0 {
          CountBelow(st, c);
        }
      }
      forall t: nat | Covered(st, t) ensures t * st.b < h {}
    }
    if Mark(st, h) {
      forall t: nat | t < |st.table| && st.table[t] != 0 ensures t * st.b < h {
        assert Covered(st, t);
      }
    }
  }

  predicate Generous(e: Pos, b: Pos, limit: nat, n: nat) {
    forall k: nat | k < limit + b :: Span(k, e, b) < limit + b ==> n + NextTable(k, e) < b
  }

  lemma GenerousIs(e: Pos, b: Pos, limit: nat, n: nat)
    ensures Generous(e, b, limit, n) <==> Ample(e, b, limit, n)
    ensures Ample(e, b, limit, n) ==> limit <= Span(b, e, b)
  {
    hide NextTable;
    if Generous(e, b, limit, n) {
      forall k: nat | Span(k, e, b) < limit + b ensures n + NextTable(k, e) < b {
        SpanAtLeast(k, e, b);
      }
    }
    assert Ample(e, b, limit, n) ==> Span(b, e, b) >= limit + b;
  }

  lemma SpanAtLeast(k: nat, e: Pos, b: Pos)
    ensures k <= Span(k, e, b)
  {
    MulMono(1, e, k);
    MulMono(1, b, k * e);
  }

  /** Is there room for n clusters in runs of at most `run`? */
  predicate HasRoom(st: Store, n: nat, run: nat) {
    && |st.table| == TableClusters(st) * st.e
    && exists limit: nat | limit <= Span(st.b, st.e, st.b) ::
      && Generous(st.e, st.b, limit, run)
      && exists h: nat | h <= limit ::
        Vacant(st, h) && h + Reserve(TableClusters(st), st.e, st.b, limit) + n <= limit
  }

  lemma HasRoomIs(st: Store, n: nat, run: nat)
    ensures HasRoom(st, n, run) <==> RoomFor(st, n, run)
  {
    hide Vacant, Mark, Reserve, Ample, Generous, Span;
    forall limit: nat
      ensures Generous(st.e, st.b, limit, run) <==> Ample(st.e, st.b, limit, run)
      ensures Ample(st.e, st.b, limit, run) ==> limit <= Span(st.b, st.e, st.b)
    {
      GenerousIs(st.e, st.b, limit, run);
    }
    forall h: nat ensures Vacant(st, h) <==> Mark(st, h) {
      VacantMarks(st, h);
    }
  }

  lemma MarkPlace(st: Store, at: nat, n: nat, h: nat)
    requires Mark(st, h) && FirstFit(st, st.free, at, n)
    ensures at <= h
  {
    hide Count;
    assert at > h ==> Blocked(st, h, n);
  }

  lemma MarkAlloc(st: Store, st': Store, at: nat, n: nat, h: nat, h': nat)
    requires Mark(st, h) && Evolves(st, st', at, n) && Within(st, st', at, n)
    requires h <= h' && at + n + (if at + n > |st.table| * st.b then Longer(st) else 0) + 1 <= h'
    ensures Mark(st', h')
  {
    hide Count, IsMeta, Longer;
    forall c: nat | h' <= c ensures Count(st', c) == 0 {
      EvolvesAt(st, st', at, n, c);
    }
  }

  lemma RoomAlloc(st: Store, st': Store, at: nat, n: nat, limit: nat, budget: nat)
    requires Room(st, limit, budget) && n + 1 <= budget && FirstFit(st, st.free, at, n) && TableClusters(st) > 0
    requires Evolves(st, st', at, n) && Within(st, st', at, n)
    ensures Room(st', limit, budget - n - 1)
  {
    hide Count, IsMeta, Evolves, FirstFit, Mark, Reserve, GrownClusters;
    var k := TableClusters(st);
    var h: nat :| Mark(st, h) && h + Reserve(k, st.e, st.b, limit) + budget <= limit;
    MarkPlace(st, at, n, h);
    var longer := if at + n > |st.table| * st.b then Longer(st) else 0;
    var h' := if at + n + longer + 1 > h then at + n + longer + 1 else h;
    MarkAlloc(st, st', at, n, h, h');
    EvolvesSizes(st, st', at, n);
    RoomTable(st, st', k, longer);
    if longer > 0 {
      ReserveNext(k, st.e, st.b, limit);
    }
    RoomBy(st', limit, budget - n - 1, h');
  }

  lemma RoomBy(st: Store, limit: nat, budget: nat, h: nat)
    requires |st.table| == TableClusters(st) * st.e && Mark(st, h)
    requires h + Reserve(TableClusters(st), st.e, st.b, limit) + budget <= limit
    ensures Room(st, limit, budget)
  {
  }

  lemma RoomTable(st: Store, st': Store, k: nat, longer: nat)
    requires |st.table| == k * st.e && k == TableClusters(st) && st'.e == st.e
    requires (longer > 0 ==> Full(st) && longer == Longer(st))
    requires |st'.table| == if longer == 0 then |st.table| else longer * st.e
    ensures TableClusters(st') == (if longer == 0 then k else longer) && |st'.table| == TableClusters(st') * st'.e
    ensures longer > 0 ==> longer == NextTable(k, st.e)
  {
    DivUnique(|st'.table|, st.e, if longer == 0 then k else longer, 0);
  }

  lemma ReserveNext(k: nat, e: Pos, b: Pos, limit: nat)
    requires Span(k, e, b) < limit
    ensures Reserve(k, e, b, limit) == NextTable(k, e) + Reserve(NextTable(k, e), e, b, limit)
  {
  }

  /** A count that does not become positive, and a search position no further on. */
  lemma RoomSame(st: Store, st': Store, limit: nat, budget: nat)
    requires Room(st, limit, budget) && SameTables(st, st') && st'.free <= st.free
    requires forall c: nat :: Count(st, c) == 0 ==> Count(st', c) == 0
    ensures Room(st', limit, budget)
  {
    hide Count, Reserve;
    var h: nat :| Mark(st, h) && h + Reserve(TableClusters(st), st.e, st.b, limit) + budget <= limit;
    MarkSame(st, st', h, h);
  }

  /** The search for no clusters at all steps past one. */
  lemma RoomSkip(st: Store, st': Store, limit: nat, budget: nat)
    requires Room(st, limit, budget) && budget > 0 && SameButSearch(st, st') && st'.free == NextBlock(st) + 1
    ensures Room(st', limit, budget - 1)
  {
    hide Reserve, Count;
    var h: nat :| Mark(st, h) && h + Reserve(TableClusters(st), st.e, st.b, limit) + budget <= limit;
    SearchCount(st, st');
    assert NextBlock(st) > h ==> Count(st, h) > 0;
    MarkSame(st, st', h, h + 1);
  }

  lemma MarkSame(st: Store, st': Store, h: nat, h': nat)
    requires Mark(st, h) && h <= h' && st'.b == st.b && st'.table == st.table && st'.free <= h'
    requires forall c: nat :: Count(st, c) == 0 ==> Count(st', c) == 0
    ensures Mark(st', h')
  {
    hide Count;
    forall t: nat | Covered(st', t) ensures t * st'.b < h' {
      assert Covered(st, t);
    }
  }

  lemma RoomFresh(b: Pos, e: Pos, d: Disk, n: nat, limit: nat, budget: nat)
    requires n + 3 <= b && n + 3 + Reserve(1, e, b, limit) + budget <= limit
    ensures Room(FreshStore(b, e, d, n), limit, budget)
  {
    hide Reserve;
    var st := FreshStore(b, e, d, n);
    FreshReady(b, e, d, n);
    DivUnique(e, e, 1, 0);
    forall t: nat | Covered(st, t) ensures t * b < n + 3 {
      assert t == 0;
    }
    assert Mark(st, n + 3);
  }
}

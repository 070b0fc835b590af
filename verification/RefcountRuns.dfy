/**
 Counting a freshly allocated run that may take several regions without a block. The blocks made for them come after
 the run, so that all but the last one stray; whether the counts come out right depends on where they fall.
 */
module RefcountRuns {
  import opened Arith
  import opened Qcow2Format
  import opened Qcow2Grow
  import opened RefcountState
  import opened RefcountSteps
  import opened RefcountTally

  // ---------- The condition ----------

  /** The first region without a block. */
  ghost function Top(st: Store): nat { TopFrom(st, 0) }

  ghost function TopFrom(st: Store, t: nat): (r: nat)
    ensures t <= r && !Covered(st, r) && forall u :: t <= u < r ==> Covered(st, u)
    decreases |st.table| - t
  {
    if Covered(st, t) then TopFrom(st, t + 1) else t
  }

  /** The run ends where regions have blocks, or in the first region without one, or else the blocks for all the
      regions it takes fit behind it in its last region, of which it takes the first cluster. */
  ghost predicate Safe(st: Store, at: nat, n: nat) {
    var top, end := Top(st), at + n;
    var last := Region(st.b, end);
    end <= top * st.b || last == top || (last > top && end % st.b != 0 && Region(st.b, end + (last - top)) == last)
  }

  // ---------- Steps of a run ----------

  ghost predicate RunStays(st: Store, at: nat, n: nat)
    decreases n, 0
  {
    n == 0 || (RunStays(st, at, n - 1) && Stays(TallyRun(st, at, n - 1), at + n - 1))
  }

  /** update_refcount with addend 1 on a run. */
  ghost function TallyRun(st: Store, at: nat, n: nat): Store
    requires RunStays(st, at, n)
    decreases n, 1
  {
    if n == 0 then st else Tally(TallyRun(st, at, n - 1), at + n - 1)
  }

  /** Just before counting the n clusters at `at`: free, and reaching past the first region without a block. */
  ghost predicate Start(st: Store, at: nat, n: nat, top: nat) {
    && Inv(st) && Settled(st) && st.free == at + n && n > 0 && st.b >= 2 && Roomy(st) && AllFree(st, at, n)
    && (forall u: nat :: Covered(st, u) <==> u < top) && at <= top * st.b < at + n && top < Region(st.b, at + n)
  }

  lemma StartClear(st: Store, at: nat, n: nat, top: nat)
    requires Start(st, at, n, top)
    ensures Clear(st)
  {
    forall x: nat | st.free <= x ensures Count(st, x) == 0 {
      if Region(st.b, x) < top {
        MulMono(Region(st.b, x) + 1, top, st.b);
        RegionSpan(st.b, x);
      }
    }
  }

  /** The cache is right, or holds another block than the next cluster will need. */
  ghost predicate CacheFine(st: Store, at: nat, i: nat) {
    Inv(st) || (i > 0 && (at + i - 1) % st.b == 0 && Covered(st, Region(st.b, at + i - 1))
                && st.cacheAt != st.table[Region(st.b, at + i - 1)])
  }

  /** What holds after i clusters, come what may. */
  ghost predicate Running(s0: Store, st: Store, at: nat, n: nat, i: nat) {
    && Loose(st) && Clear(st) && Roomy(st) && CacheFine(st, at, i) && at + n <= st.free
    && st.b == s0.b && |st.table| == |s0.table| && (forall u: nat :: Covered(s0, u) ==> Covered(st, u))
    && (forall x: nat :: InRun(at, i, x) ==> Covered(st, Region(st.b, x)))
    && (forall x: nat :: x < at + n && IsMeta(st, x) ==> IsMeta(s0, x))
  }

  lemma SameRegion(b: Pos, c: nat)
    requires c > 0 && b >= 2
    ensures c % b != 0 ==> Region(b, c - 1) == Region(b, c)
    ensures (c - 1) % b == 0 ==> Region(b, c - 1) == Region(b, c)
  {
    if c % b != 0 {
      DivUnique(c - 1, b, c / b, c % b - 1);
    }
    if (c - 1) % b == 0 {
      DivUnique(c, b, (c - 1) / b, 1);
    }
  }

  /** A cluster that needs a block is the first of its region. */
  lemma StartsRegion(s0: Store, st: Store, at: nat, n: nat, top: nat, i: nat)
    requires Start(s0, at, n, top) && Running(s0, st, at, n, i) && i < n && !Covered(st, Region(st.b, at + i))
    ensures (at + i) % st.b == 0 && Inv(st) && at + i == Region(st.b, at + i) * st.b
  {
    hide Inv, Count, IsMeta, Loose, Clear, Roomy;
    var c := at + i;
    RegionSpan(st.b, c);
    if i > 0 {
      assert InRun(at, i, c - 1);
      SameRegion(st.b, c);
    } else {
      MulMono(top, Region(st.b, c), st.b);
      RegionSpan(st.b, c);
    }
    FirstOf(st.b, c, top);
  }

  function FirstOfRegion(b: Pos, r: nat): nat { r * b }

  lemma FirstOf(b: Pos, c: nat, top: nat)
    ensures c == top * b ==> c % b == 0
    ensures c % b == 0 ==> c == Region(b, c) * b
  {
    if c == top * b {
      DivUnique(c, b, top, 0);
    }
  }

  lemma InsideTable(st: Store, c: nat)
    requires Roomy(st) && c < st.free
    ensures Region(st.b, c) < |st.table|
  {
    if Region(st.b, c) >= |st.table| {
      MulMono(|st.table|, Region(st.b, c), st.b);
      RegionSpan(st.b, c);
    }
  }

  /** One more cluster can be counted, and all that holds come what may holds again. */
  lemma RunningStep(s0: Store, st: Store, at: nat, n: nat, top: nat, i: nat)
    requires Start(s0, at, n, top) && Running(s0, st, at, n, i) && i < n
    ensures Stays(st, at + i) && Filled(st, Tally(st, at + i), at + i) && Running(s0, Tally(st, at + i), at, n, i + 1)
  {
    hide Inv, Count, IsMeta, Loose, Clear, Roomy, Filled, Stays, Tally, CacheFine, Start;
    var c := at + i;
    InsideTable(st, c);
    if Covered(st, Region(st.b, c)) {
      RunningCovered(s0, st, at, n, top, i);
    } else {
      StartsRegion(s0, st, at, n, top, i);
      ClearStays(st, c);
      MissingCacheFine(st, at, i);
    }
    RunningFilled(s0, st, Tally(st, c), at, n, i);
  }

  lemma RunningCovered(s0: Store, st: Store, at: nat, n: nat, top: nat, i: nat)
    requires Start(s0, at, n, top) && Running(s0, st, at, n, i) && i < n && Covered(st, Region(st.b, at + i))
    ensures Stays(st, at + i) && (Inv(st) || st.cacheAt != st.table[Region(st.b, at + i)])
    ensures var st' := Tally(st, at + i);
      Inv(st') && Loose(st') && Clear(st') && Roomy(st') && Filled(st, st', at + i) && CacheFine(st', at, i + 1)
  {
    hide Inv, Count, IsMeta, Loose, Clear, Roomy, Filled, Stays, Tally;
    var c := at + i;
    if !Inv(st) {
      SameRegion(st.b, c);
    }
    CoveredStays(st, c);
    TallyCovered(st, c);
    CoveredClear(st, c);
  }

  lemma MissingCacheFine(st: Store, at: nat, i: nat)
    requires Inv(st) && Clear(st) && !Covered(st, Region(st.b, at + i)) && (at + i) % st.b == 0 && at + i < st.free
    requires Stays(st, at + i) && Loose(Tally(st, at + i)) && Filled(st, Tally(st, at + i), at + i)
    requires CacheLater(st, Tally(st, at + i), at + i)
    ensures CacheFine(Tally(st, at + i), at, i + 1)
  {
    hide Inv, Count, IsMeta, Stays, Tally, HeldOK, LooseCache, TableOK;
    var c := at + i;
    var st' := Tally(st, c);
    ClearNext(st);
    if Region(st.b, st.free) == Region(st.b, c) {
      TallySelf(st, c);
    } else {
      RegionMono(st.b, c, st.free);
      var r :| Region(st.b, c) <= r < |st'.table| && st'.table[r] == st'.cacheAt && Region(st.b, st.free) <= r;
      assert st'.table[Region(st.b, c)] != st'.table[r];
    }
  }

  lemma RunningFilled(s0: Store, st: Store, st': Store, at: nat, n: nat, i: nat)
    requires Running(s0, st, at, n, i) && i < n && Filled(st, st', at + i)
    requires Loose(st') && Clear(st') && Roomy(st') && CacheFine(st', at, i + 1)
    ensures Running(s0, st', at, n, i + 1)
  {
    hide Inv, Count, IsMeta, Loose, Clear, Roomy, CacheFine;
    forall x: nat | InRun(at, i + 1, x) ensures Covered(st', Region(st'.b, x)) {
      assert x == at + i || InRun(at, i, x);
    }
  }

  /** A cluster of the run not counted yet. */
  lemma NotYet(s0: Store, st: Store, at: nat, n: nat, top: nat, i: nat, x: nat)
    requires Start(s0, at, n, top) && Running(s0, st, at, n, i) && Evolves(s0, st, at, i) && at + i <= x < at + n
    ensures Count(st, x) == 0 && !IsMeta(st, x)
  {
    hide Inv, Count, IsMeta, Loose, Clear, Roomy, CacheFine;
    assert Count(s0, x) == 0;
    EvolvesAt(s0, st, at, i, x);
  }

  // ---------- Right so far ----------

  /** After i clusters all counts are right. The first m regions without a block have got theirs, from the end of the
      run on, and so has the last region, where those blocks lie. */
  ghost predicate Fine(s0: Store, st: Store, at: nat, n: nat, top: nat, i: nat, m: nat) {
    var last := Region(s0.b, at + n);
    && Evolves(s0, st, at, i) && st.free == at + n + (if m == 0 then 0 else m + 1) && top + m <= last
    && (forall u: nat :: Covered(st, u) <==> u < top + m || (m > 0 && u == last))
    && (m > 0 ==> (at + n) % s0.b != 0 && Region(s0.b, at + n + m) == last && (top + m - 1) * s0.b < at + i)
    && (at + i <= (top + m) * s0.b || top + m == last)
  }

  /** Some cluster of the run has a wrong count. */
  ghost predicate Wrong(st: Store, at: nat, i: nat) { exists y: nat :: InRun(at, i, y) && Count(st, y) != 1 }

  lemma WrongStays(st: Store, st': Store, at: nat, i: nat)
    requires Wrong(st, at, i) && Filled(st, st', at + i) && at + i < st.free
    ensures Wrong(st', at, i + 1)
  {
    hide Count, IsMeta;
    var y: nat :| InRun(at, i, y) && Count(st, y) != 1;
    assert InRun(at, i + 1, y);
  }

  lemma WrongNow(st': Store, at: nat, i: nat)
    requires Count(st', at + i) != 1
    ensures Wrong(st', at, i + 1)
  {
    assert InRun(at, i + 1, at + i);
  }

  lemma FineCovered(s0: Store, st: Store, st': Store, at: nat, n: nat, top: nat, i: nat, m: nat)
    requires Stays(st, at + i) && st' == Tally(st, at + i)
    requires Start(s0, at, n, top) && Running(s0, st, at, n, i) && i < n && Fine(s0, st, at, n, top, i, m)
    requires Covered(st, Region(st.b, at + i))
    ensures Fine(s0, st', at, n, top, i + 1, m)
  {
    hide Inv, Count, IsMeta, Loose, Clear, Roomy, Filled, Stays, Tally, CacheFine, Evolves, Recounted, Running, Start,
         Fine, Region;
    var c := at + i;
    RunningCovered(s0, st, at, n, top, i);
    RunningParts(s0, st, at, n, i);
    FineParts(s0, st, at, n, top, i, m);
    NotYet(s0, st, at, n, top, i, c);
    TallyRecounts(st, c);
    RecountedEvolves(st, st', c);
    EvolvesThen(s0, st, st', at, i, 1);
    RecountedTables(st, st', c, 1);
    FineKept(s0, st, st', at, n, top, i, m);
  }

  lemma FineParts(s0: Store, st: Store, at: nat, n: nat, top: nat, i: nat, m: nat)
    requires Fine(s0, st, at, n, top, i, m)
    ensures Evolves(s0, st, at, i)
  {
  }

  lemma FineKept(s0: Store, st: Store, st': Store, at: nat, n: nat, top: nat, i: nat, m: nat)
    requires Fine(s0, st, at, n, top, i, m) && SameTables(st, st') && st'.free == st.free && Evolves(s0, st', at, i + 1)
    requires st.b == s0.b && Covered(st, Region(st.b, at + i))
    ensures Fine(s0, st', at, n, top, i + 1, m)
  {
    hide Evolves, Region;
    var last := Region(s0.b, at + n);
    assert at + i <= (top + m) * s0.b || top + m == last;
    CoveredBound(s0.b, at + i, top + m, last);
    assert forall u: nat :: Covered(st', u) <==> Covered(st, u);
  }

  lemma RunningParts(s0: Store, st: Store, at: nat, n: nat, i: nat)
    requires Running(s0, st, at, n, i)
    ensures Loose(st) && Clear(st) && Roomy(st) && st.b == s0.b && at + n <= st.free && |st.table| == |s0.table|
  {
  }

  lemma RecountedTables(st: Store, st': Store, c: nat, n: nat)
    requires Recounted(st, st', c, n) && n > 0
    ensures SameTables(st, st') && st'.free == st.free
  {
  }

  /** A cluster below region u, or in region r when u comes before r, and what comes after it. */
  lemma CoveredBound(b: Pos, c: nat, u: nat, r: nat)
    requires c <= u * b || u == r
    requires Region(b, c) < u || Region(b, c) == r
    ensures c + 1 <= u * b || u >= r
  {
    RegionSpan(b, c);
    if Region(b, c) < u {
      MulMono(Region(b, c) + 1, u, b);
    } else if u < r {
      MulMono(u + 1, r, b);
    }
  }

  // ---------- A block that strays ----------

  /** Saving the count of a region's first cluster c while the cache holds the block of region r. */
  lemma StrayCount(st: Store, s2: Store, c: nat, r: nat)
    requires Inv(st) && c < st.free && !Covered(st, Region(st.b, c)) && Region(st.b, c) < |st.table| && c % st.b == 0
    requires Evolves(NewBlock(st, Region(st.b, c), NextBlock(st)), s2, NextBlock(st), 1) && Inv(s2)
    requires Filled(NewBlock(st, Region(st.b, c), NextBlock(st)), s2, NextBlock(st))
    requires Covered(s2, r) && s2.cacheAt == s2.table[r]
    ensures var st' := Bump(s2, NextBlock(st), c); var k := Count(s2, FirstOfRegion(s2.b, r));
      && SameTables(s2, st') && st'.free == s2.free && Count(st', c) == (if k < MAX_COUNT then k + 1 else 0)
      && (k == 0 ==> Evolves(st, st', c, 1))
  {
    hide Inv, Count, IsMeta, Filled, Evolves, NextBlock, Bump, NewBlock, Region, BlocksOK, Loose, FirstOfRegion;
    var o := NextBlock(st);
    MissingBefore(st, c, s2);
    NewBlockThen(st, s2, Region(st.b, c), o);
    InvLoose(s2);
    LooseBlocks(s2);
    StraySaved(s2, o, c, r);
    if Count(s2, FirstOfRegion(s2.b, r)) == 0 {
      BumpEvolves(st, s2, o, c);
    }
  }

  lemma StraySaved(s2: Store, o: nat, c: nat, r: nat)
    requires Inv(s2) && BlocksOK(s2) && Covered(s2, Region(s2.b, c)) && s2.table[Region(s2.b, c)] == o
    requires Count(s2, c) == 0 && c % s2.b == 0
    requires Covered(s2, r) && s2.cacheAt == s2.table[r]
    ensures var st' := Bump(s2, o, c); var k := Count(s2, FirstOfRegion(s2.b, r));
      SameTables(s2, st') && st'.free == s2.free && Count(st', c) == (if k < MAX_COUNT then k + 1 else 0)
  {
    hide Inv, Count, IsMeta, Bump, Region, BlocksOK;
    FirstCached(s2, r);
    BumpCount(s2, o, c);
    BumpMoves(s2, o, c);
  }

  lemma FirstCached(st: Store, r: nat)
    requires Inv(st) && Covered(st, r) && st.cacheAt == st.table[r]
    ensures |st.cache| == st.b && st.cache[0] == Count(st, FirstOfRegion(st.b, r))
  {
    InRegion(st.b, r * st.b, r);
    FirstOf(st.b, r * st.b, r);
    CachedCount(st, r * st.b);
    InvLoose(st);
    CachedBlock(st);
  }

  lemma BumpMoves(st: Store, at: nat, c: nat)
    requires BlocksOK(st) && Covered(st, Region(st.b, c)) && st.table[Region(st.b, c)] == at && |st.cache| == st.b
    ensures Bump(st, at, c) == st <==> st.cache[c % st.b] >= MAX_COUNT
  {
    assert IsBlock(st, at);
    if st.cache[c % st.b] < MAX_COUNT {
      assert Bump(st, at, c).cache[c % st.b] != st.cache[c % st.b];
    }
  }

  lemma BumpEvolves(st: Store, s2: Store, o: nat, c: nat)
    requires Evolves(st, s2, 0, 0) && BlocksOK(s2) && Covered(s2, Region(s2.b, c)) && s2.table[Region(s2.b, c)] == o
    requires Count(Bump(s2, o, c), c) == Count(s2, c) + 1
    ensures Evolves(st, Bump(s2, o, c), c, 1)
  {
    hide Count, Bump, BlocksOK;
    var st' := Bump(s2, o, c);
    BumpCount(s2, o, c);
    SameMeta(s2, st');
    assert IsMeta(s2, o);
    assert Evolves(s2, st', c, 1);
    EvolvesNone(st, s2, 0, c);
    EvolvesThen(st, s2, st', c, 0, 1);
  }

  /** Cluster c needs a block for its region, and the next one would lie in region r. */
  ghost predicate Needs(st: Store, c: nat, r: nat) {
    && Inv(st) && Clear(st) && Roomy(st) && c < st.free && Region(st.b, c) < |st.table|
    && !Covered(st, Region(st.b, c)) && r == Region(st.b, st.free) && r != Region(st.b, c)
  }

  /** The block for c's region lies at the search position; counting it is the first thing done. */
  lemma StrayStart(st: Store, c: nat, r: nat)
    requires Needs(st, c, r)
    ensures NextBlock(st) == st.free && Stays(st, c) && r < |st.table|
    ensures var st1 := NewBlock(st, Region(st.b, c), st.free);
      && Inv(st1) && Loose(st1) && Clear(st1) && Roomy(st1) && st1.free == st.free + 1 && NextBlock(st1) == st.free + 1
      && st1.b == st.b
      && Stays(st1, st.free) && st1.table == st.table[Region(st.b, c) := st.free]
      && Tally(st, c) == Bump(Tally(st1, st.free), st.free, c)
      && Loose(Tally(st1, st.free)) && Filled(st1, Tally(st1, st.free), st.free)
  {
    hide Inv, Count, IsMeta, Loose, Filled, Clear, Roomy, NextBlock, Stays, Tally, Bump, CacheLater;
    var t := Region(st.b, c);
    ClearNew(st, t);
    var st1 := NewBlock(st, t, st.free);
    ClearNext(st1);
    InvLoose(st1);
    ClearStays(st1, st.free);
    ClearStays(st, c);
    StaysMissing(st, c);
  }

  /** Region r has a block. */
  lemma StrayCovered(st: Store, c: nat, r: nat, st': Store)
    requires Needs(st, c, r) && c % st.b == 0 && Covered(st, r) && Stays(st, c) && st' == Tally(st, c)
    requires FirstOfRegion(st.b, r) != st.free && Count(st, FirstOfRegion(st.b, r)) == 0
    ensures Evolves(st, st', c, 1) && st'.free == st.free + 1 && st'.table == st.table[Region(st.b, c) := st.free]
  {
    hide Inv, Count, IsMeta, Loose, Filled, Clear, Roomy, NextBlock, Stays, Tally, Bump, Evolves, Recounted, Region,
         FirstOfRegion;
    var t, o := Region(st.b, c), st.free;
    StrayStart(st, c, r);
    NewBlockFilled(st, t, o);
    var st1 := NewBlock(st, t, o);
    FreeIsNew(st);
    TallyRecounts(st1, o);
    var s2 := Tally(st1, o);
    RecountedEvolves(st1, s2, o);
    RecountedTables(st1, s2, o, 1);
    RecountedRest(st1, s2, o, 1);
    StrayCount(st, s2, c, r);
  }

  lemma RecountedRest(st: Store, st': Store, c: nat, n: nat)
    requires Recounted(st, st', c, n)
    ensures Inv(st') && Covered(st, Region(st.b, c)) && st'.cacheAt == st.table[Region(st.b, c)]
    ensures forall y: nat :: Count(st', y) == if y == c then n else Count(st, y)
  {
  }

  /** Region r has none, and its own block lies in it, next to the one for c's region. */
  lemma StraySelf(st: Store, c: nat, r: nat, st': Store)
    requires Needs(st, c, r) && c % st.b == 0 && !Covered(st, r) && Region(st.b, st.free + 1) == r && Stays(st, c)
    requires st' == Tally(st, c)
    ensures FirstOfRegion(st.b, r) == st.free ==> Count(st', c) == 2
    ensures FirstOfRegion(st.b, r) != st.free ==> Evolves(st, st', c, 1)
    ensures st'.free == st.free + 2 && r < |st.table|
    ensures st'.table == st.table[Region(st.b, c) := st.free][r := st.free + 1]
  {
    hide Inv, Count, IsMeta, Loose, Filled, Clear, Roomy, NextBlock, Stays, Tally, Bump, Evolves, Region, FirstOfRegion,
         Settles, NewBlock;
    var o := st.free;
    StrayStart(st, c, r);
    var st1 := NewBlock(st, Region(st.b, c), o);
    TallySelf(st1, o);
    var s2 := Tally(st1, o);
    FilledFree(st1, s2, o);
    StrayCount(st, s2, c, r);
    SelfFirst(st, Region(st.b, c), r, s2);
  }

  /** The count of the first cluster of region r, once the block at the search position has been counted. */
  lemma SelfFirst(st: Store, t: nat, r: nat, s2: Store)
    requires Inv(st) && t < |st.table| && st.table[t] == 0 && r == Region(st.b, st.free) && !Covered(st, r)
    requires NextBlock(st) == st.free
    requires var st1 := NewBlock(st, t, st.free);
      Evolves(st1, s2, st.free, 1) && Settles(st1, s2, st.free) && Filled(st1, s2, st.free)
    ensures Count(s2, FirstOfRegion(st.b, r)) == B(FirstOfRegion(st.b, r) == st.free)
  {
    hide Inv, Count, IsMeta, Evolves, NextBlock, Region;
    var st1, x := NewBlock(st, t, st.free), FirstOfRegion(st.b, r);
    NewBlockFilled(st, t, st.free);
    NewBlockMeta(st, t, st.free, x);
    NewBlockMeta(st, t, st.free, st.free);
    RegionSpan(st.b, st.free);
    InRegion(st.b, x, r);
    UncoveredFree(st, x);
    EvolvesAt(st1, s2, st.free, 1, x);
    EvolvesMore(st1, s2, st.free, 1, st.free);
    assert x < st1.free && st1.free == st.free + 1;
    if x == st.free {
      NewBlockStays(st1, s2, t, x);
    }
  }

  lemma NewBlockStays(st1: Store, s2: Store, t: nat, x: nat)
    requires Filled(st1, s2, x) && t < |st1.table| && st1.table[t] == x && x != 0
    ensures IsMeta(s2, x)
  {
    assert s2.table[t] == x;
  }

  /** Region r has none, and its own block would lie in the next region, which has none either. */
  lemma StrayTwice(st: Store, c: nat, r: nat, st': Store)
    requires Needs(st, c, r) && c % st.b == 0 && !Covered(st, r) && Region(st.b, st.free + 1) == r + 1
    requires !Covered(st, r + 1)
    requires Stays(st, c) && st' == Tally(st, c) && st.b >= 2 && r + 1 != Region(st.b, c)
    ensures Count(st', c) == 2
  {
    hide Inv, Count, IsMeta, Loose, Filled, Clear, Roomy, NextBlock, Stays, Tally, Bump, Evolves, Region, FirstOfRegion,
         Settles, NewBlock, Needs;
    var t, o := Region(st.b, c), st.free;
    NeedsParts(st, c, r);
    StrayStart(st, c, r);
    var st1 := NewBlock(st, t, o);
    var s2 := Tally(st1, o);
    TwiceStart(st, st1, c, r);
    TwiceInner(st1, o, r, s2);
    FilledFree(st1, s2, o);
    MissingBefore(st, c, s2);
    LooseBlocks(s2);
    BumpCount(s2, o, c);
    BumpMoves(s2, o, c);
  }

  lemma NeedsParts(st: Store, c: nat, r: nat)
    requires Needs(st, c, r)
    ensures Inv(st) && c < st.free && Region(st.b, c) < |st.table| && st.table[Region(st.b, c)] == 0
    ensures r == Region(st.b, st.free)
    ensures Clear(st) && Roomy(st) && r != Region(st.b, c)
  {
  }

  lemma TwiceStart(st: Store, st1: Store, c: nat, r: nat)
    requires Needs(st, c, r) && !Covered(st, r) && !Covered(st, r + 1)
    requires Region(st.b, st.free + 1) == r + 1 != Region(st.b, c) && r < |st.table|
    requires Inv(st1) && Clear(st1) && Roomy(st1) && st1.free == st.free + 1 && st1.b == st.b
    requires st1.table == st.table[Region(st.b, c) := st.free]
    ensures Needs(st1, st.free, r + 1) && !Covered(st1, r + 1)
  {
    hide Inv, Count, Clear, Roomy, Region;
  }

  /** The inner block is counted well; the outer one is then saved while the cache holds the inner one's block. */
  lemma TwiceInner(st1: Store, o: nat, r: nat, s2: Store)
    requires Needs(st1, o, r + 1) && !Covered(st1, r + 1) && Region(st1.b, o) == r && st1.free == o + 1 && st1.b >= 2
    requires Stays(st1, o) && s2 == Tally(st1, o)
    ensures |s2.cache| == st1.b && s2.cache[0] == 1
  {
    hide Inv, Count, IsMeta, Loose, Filled, Clear, Roomy, NextBlock, Stays, Tally, Bump, Evolves, Region, FirstOfRegion,
         Settles, NewBlock, Needs;
    NeedsParts(st1, o, r + 1);
    StrayStart(st1, o, r + 1);
    var st2 := NewBlock(st1, r, o + 1);
    Boundary(st1.b, o, r);
    TallySelf(st2, o + 1);
    var s3 := Tally(st2, o + 1);
    FilledFree(st2, s3, o + 1);
    SelfFirst(st1, r, r + 1, s3);
    FirstCached(s3, r + 1);
    BumpCacheAt(s3, o + 1, o);
  }

  lemma BumpCacheAt(st: Store, at: nat, c: nat)
    requires |st.cache| == st.b && c % st.b != 0
    ensures |Bump(st, at, c).cache| == st.b && Bump(st, at, c).cache[0] == st.cache[0]
  {
  }

  /** Two neighbours in different regions. */
  lemma Boundary(b: Pos, o: nat, r: nat)
    requires Region(b, o) == r && Region(b, o + 1) == r + 1 && b >= 2
    ensures FirstOfRegion(b, r + 1) == o + 1 && o % b != 0 && Region(b, o + 2) == r + 1
  {
    RegionSpan(b, o);
    RegionSpan(b, o + 1);
    DivUnique(o, b, r, b - 1);
    InRegion(b, o + 2, r + 1);
  }

  // ---------- The outcome ----------

  /** All right so far, or a count is wrong and the run was not safe. */
  ghost predicate Outcome(s0: Store, st: Store, at: nat, n: nat, top: nat, i: nat) {
    (exists m: nat :: Fine(s0, st, at, n, top, i, m)) || (Wrong(st, at, i) && !SafeFrom(s0.b, at + n, top))
  }

  /** Safe, for a run that ends past the first region without a block. */
  predicate SafeFrom(b: Pos, end: nat, top: nat) {
    var last := Region(b, end);
    last > top && end % b != 0 && Region(b, end + (last - top)) == last
  }

  lemma OutcomeFine(s0: Store, st: Store, at: nat, n: nat, top: nat, i: nat, m: nat)
    requires Fine(s0, st, at, n, top, i, m)
    ensures Outcome(s0, st, at, n, top, i)
  {
  }

  /** The next block would leave the last region. */
  lemma UnsafeBeyond(b: Pos, end: nat, top: nat, m: nat)
    requires m > 0 && top + m <= Region(b, end) && Region(b, end + m) != Region(b, end)
    ensures !SafeFrom(b, end, top) && Region(b, end + m) > Region(b, end)
  {
    hide Region;
    RegionMono(b, end, end + m);
    RegionMono(b, end + m, end + (Region(b, end) - top));
  }

  /** Where the next cluster without a block lies: at the start of region top + m, before the last one. */
  lemma FineNext(s0: Store, st: Store, at: nat, n: nat, top: nat, i: nat, m: nat)
    requires Start(s0, at, n, top) && Running(s0, st, at, n, i) && i < n && Fine(s0, st, at, n, top, i, m)
    requires !Covered(st, Region(st.b, at + i))
    ensures Region(st.b, at + i) == top + m < Region(st.b, at + n) && at + i == FirstOfRegion(st.b, top + m)
    ensures Needs(st, at + i, Region(st.b, st.free)) && (at + i) % st.b == 0
  {
    hide Inv, Count, IsMeta, Loose, Clear, Roomy, CacheFine, Evolves, Region, Running, Start, Fine;
    var c := at + i;
    StartsRegion(s0, st, at, n, top, i);
    RunningParts(s0, st, at, n, i);
    StartSizes(s0, st, at, n, top, i);
    FineShape(s0, st, at, n, top, i, m);
    InsideTable(st, c);
    RegionMono(st.b, c, at + n);
    RegionMono(st.b, at + n, st.free);
    FinePlace(s0, st, at, n, top, i, m, Region(st.b, c));
  }

  lemma FinePlace(s0: Store, st: Store, at: nat, n: nat, top: nat, i: nat, m: nat, u: nat)
    requires Fine(s0, st, at, n, top, i, m) && at + i == u * s0.b && !Covered(st, u) && top < Region(s0.b, at + n)
    requires u <= Region(s0.b, at + n)
    ensures u == top + m < Region(s0.b, at + n)
  {
    hide Evolves, Region;
    if u > top + m {
      MulMono(top + m + 1, u, s0.b);
    }
  }

  lemma FineStray(s0: Store, st: Store, st': Store, at: nat, n: nat, top: nat, i: nat, m: nat)
    requires Stays(st, at + i) && st' == Tally(st, at + i)
    requires Start(s0, at, n, top) && Running(s0, st, at, n, i) && i < n && Fine(s0, st, at, n, top, i, m)
    requires !Covered(st, Region(st.b, at + i))
    ensures Outcome(s0, st', at, n, top, i + 1)
  {
    hide Stays, Tally, Start, Running, Fine, Outcome, Covered, Region, Needs, SafeFrom, Wrong;
    if m == 0 {
      FineFirst(s0, st, st', at, n, top, i);
    } else {
      FineLater(s0, st, st', at, n, top, i, m);
    }
  }

  /** The first block made for the run. */
  lemma FineFirst(s0: Store, st: Store, st': Store, at: nat, n: nat, top: nat, i: nat)
    requires Stays(st, at + i) && st' == Tally(st, at + i)
    requires Start(s0, at, n, top) && Running(s0, st, at, n, i) && i < n && Fine(s0, st, at, n, top, i, 0)
    requires !Covered(st, Region(st.b, at + i))
    ensures Outcome(s0, st', at, n, top, i + 1)
  {
    hide Stays, Tally, Start, Running, Fine, Outcome, Region, Needs, SafeFrom, Wrong, FirstOfRegion, Evolves, Count;
    var c, end, last := at + i, at + n, Region(st.b, at + n);
    FineNext(s0, st, at, n, top, i, 0);
    StartSizes(s0, st, at, n, top, i);
    FineShape(s0, st, at, n, top, i, 0);
    RegionSpan(st.b, end);
    EndInLast(st.b, end);
    if Region(st.b, end + 1) == last {
      StraySelf(st, c, last, st');
      if FirstOfRegion(st.b, last) == end {
        WrongNow(st', at, i);
        assert !SafeFrom(s0.b, end, top) by { UnsafeFirst(s0.b, end, top); }
        OutcomeWrong(s0, st', at, n, top, i + 1);
      } else {
        FineGrows(s0, st, st', at, n, top, i, 0);
        OutcomeFine(s0, st', at, n, top, i + 1, 1);
      }
    } else {
      UnsafeBeyond(st.b, end, top, 1);
      NextRegion(st.b, end);
      StrayTwice(st, c, last, st');
      WrongNow(st', at, i);
      OutcomeWrong(s0, st', at, n, top, i + 1);
    }
  }

  lemma OutcomeWrong(s0: Store, st: Store, at: nat, n: nat, top: nat, i: nat)
    requires Wrong(st, at, i) && !SafeFrom(s0.b, at + n, top)
    ensures Outcome(s0, st, at, n, top, i)
  {
  }

  lemma UnsafeFirst(b: Pos, end: nat, top: nat)
    requires FirstOfRegion(b, Region(b, end)) == end
    ensures !SafeFrom(b, end, top)
  {
    FirstOf(b, end, Region(b, end));
  }

  lemma EndInLast(b: Pos, end: nat)
    ensures FirstOfRegion(b, Region(b, end)) <= end && (end % b != 0 <==> FirstOfRegion(b, Region(b, end)) != end)
  {
    RegionSpan(b, end);
    FirstOf(b, end, Region(b, end));
  }

  lemma NextRegion(b: Pos, x: nat)
    ensures Region(b, x + 1) == Region(b, x) || Region(b, x + 1) == Region(b, x) + 1
  {
    RegionSpan(b, x);
    if x + 1 < RegionEnd(b, x) {
      InRegion(b, x + 1, Region(b, x));
    } else {
      InRegion(b, x + 1, Region(b, x) + 1);
    }
  }

  lemma StartSizes(s0: Store, st: Store, at: nat, n: nat, top: nat, i: nat)
    requires Start(s0, at, n, top) && Running(s0, st, at, n, i)
    ensures st.b == s0.b && st.b >= 2 && |st.table| == |s0.table| && top < Region(s0.b, at + n)
  {
  }

  lemma FineShape(s0: Store, st: Store, at: nat, n: nat, top: nat, i: nat, m: nat)
    requires Fine(s0, st, at, n, top, i, m)
    ensures st.free == at + n + (if m == 0 then 0 else m + 1) && top + m <= Region(s0.b, at + n)
    ensures forall u: nat :: Covered(st, u) <==> u < top + m || (m > 0 && u == Region(s0.b, at + n))
    ensures m > 0 ==> (at + n) % s0.b != 0 && Region(s0.b, at + n + m) == Region(s0.b, at + n)
    ensures Evolves(s0, st, at, i)
  {
  }

  /** The block for region top + m is in place, and so is that of the last region. */
  lemma FineGrows(s0: Store, st: Store, st': Store, at: nat, n: nat, top: nat, i: nat, m: nat)
    requires Fine(s0, st, at, n, top, i, m) && Evolves(st, st', at + i, 1) && st.b == s0.b
    requires at + i == FirstOfRegion(s0.b, top + m) && top + m < Region(s0.b, at + n) < |st.table|
    requires (at + n) % s0.b != 0 && Region(s0.b, at + n + m + 1) == Region(s0.b, at + n)
    requires st'.free == at + n + m + 2 && st.free > 0
    requires var table := st.table[top + m := st.free];
      st'.table == if m == 0 then table[Region(s0.b, at + n) := st.free + 1] else table
    ensures Fine(s0, st', at, n, top, i + 1, m + 1)
  {
    hide Evolves, Region;
    var last := Region(s0.b, at + n);
    EvolvesThen(s0, st, st', at, i, 1);
    assert (top + m + 1) * s0.b == (top + m) * s0.b + s0.b;
    assert at + n + (m + 1) == at + n + m + 1;
    forall u: nat ensures Covered(st', u) <==> u < top + m + 1 || u == last {
      assert Covered(st, u) <==> u < top + m || (m > 0 && u == last);
    }
  }

  lemma FineLater(s0: Store, st: Store, st': Store, at: nat, n: nat, top: nat, i: nat, m: nat)
    requires Stays(st, at + i) && st' == Tally(st, at + i) && m > 0
    requires Start(s0, at, n, top) && Running(s0, st, at, n, i) && i < n && Fine(s0, st, at, n, top, i, m)
    requires !Covered(st, Region(st.b, at + i))
    ensures Outcome(s0, st', at, n, top, i + 1)
  {
    hide Stays, Tally, Start, Running, Fine, Outcome, Region, Needs, SafeFrom, Wrong, FirstOfRegion, Evolves, Count;
    var c, end, last := at + i, at + n, Region(st.b, at + n);
    FineNext(s0, st, at, n, top, i, m);
    StartSizes(s0, st, at, n, top, i);
    FineShape(s0, st, at, n, top, i, m);
    EndInLast(st.b, end);
    if Region(st.b, end + m + 1) == last {
      LastFirst(s0, st, at, n, top, i, m);
      StrayCovered(st, c, last, st');
      InTable(st, last);
      FineGrows(s0, st, st', at, n, top, i, m);
      OutcomeFine(s0, st', at, n, top, i + 1, m + 1);
    } else {
      UnsafeBeyond(st.b, end, top, m + 1);
      NextRegion(st.b, end + m);
      Boundary(st.b, end + m, last);
      StraySelf(st, c, last + 1, st');
      WrongNow(st', at, i);
      OutcomeWrong(s0, st', at, n, top, i + 1);
    }
  }

  lemma InTable(st: Store, u: nat)
    requires Covered(st, u)
    ensures u < |st.table|
  {
  }

  /** The first cluster of the last region belongs to the run and has not been counted. */
  lemma LastFirst(s0: Store, st: Store, at: nat, n: nat, top: nat, i: nat, m: nat)
    requires Start(s0, at, n, top) && Running(s0, st, at, n, i) && i < n && Fine(s0, st, at, n, top, i, m) && m > 0
    requires at + i == FirstOfRegion(st.b, top + m) && top + m < Region(st.b, at + n)
    ensures Count(st, FirstOfRegion(st.b, Region(st.b, at + n))) == 0
    ensures FirstOfRegion(st.b, Region(st.b, at + n)) < at + n <= st.free
  {
    hide Inv, Count, IsMeta, Loose, Clear, Roomy, CacheFine, Evolves, Region;
    EndInLast(st.b, at + n);
    MulMono(top + m, Region(st.b, at + n), st.b);
    NotYet(s0, st, at, n, top, i, FirstOfRegion(st.b, Region(st.b, at + n)));
  }

  lemma OutcomeStep(s0: Store, st: Store, st': Store, at: nat, n: nat, top: nat, i: nat)
    requires Stays(st, at + i) && st' == Tally(st, at + i) && Filled(st, st', at + i)
    requires Start(s0, at, n, top) && Running(s0, st, at, n, i) && i < n && Outcome(s0, st, at, n, top, i)
    ensures Outcome(s0, st', at, n, top, i + 1)
  {
    hide Stays, Tally, Start, Running, Fine, Covered, Region, Needs, SafeFrom, Wrong, Filled;
    if m: nat :| Fine(s0, st, at, n, top, i, m) {
      if Covered(st, Region(st.b, at + i)) {
        FineCovered(s0, st, st', at, n, top, i, m);
      } else {
        FineStray(s0, st, st', at, n, top, i, m);
      }
    } else {
      RunningParts(s0, st, at, n, i);
      WrongStays(st, st', at, i);
    }
  }

  lemma StartFine(s0: Store, at: nat, n: nat, top: nat)
    requires Start(s0, at, n, top)
    ensures Running(s0, s0, at, n, 0) && Outcome(s0, s0, at, n, top, 0)
  {
    hide Inv, Count, IsMeta, Clear, Roomy, Evolves;
    StartClear(s0, at, n, top);
    InvLoose(s0);
    EvolvesSame(s0, at);
    OutcomeFine(s0, s0, at, n, top, 0, 0);
  }

  /** Every cluster of the run can be counted in turn. */
  lemma {:induction false} RunOutcome(s0: Store, at: nat, n: nat, top: nat, i: nat)
    requires Start(s0, at, n, top) && i <= n
    ensures RunStays(s0, at, i)
    ensures Running(s0, TallyRun(s0, at, i), at, n, i) && Outcome(s0, TallyRun(s0, at, i), at, n, top, i)
  {
    hide Stays, Tally, Start, Running, Outcome, Filled;
    if i == 0 {
      StartFine(s0, at, n, top);
    } else {
      RunOutcome(s0, at, n, top, i - 1);
      var st := TallyRun(s0, at, i - 1);
      RunningStep(s0, st, at, n, top, i - 1);
      OutcomeStep(s0, st, Tally(st, at + i - 1), at, n, top, i - 1);
    }
  }

  lemma WrongUnsettled(s0: Store, st: Store, at: nat, n: nat, top: nat)
    requires Start(s0, at, n, top) && Running(s0, st, at, n, n) && Wrong(st, at, n)
    ensures !Evolves(s0, st, at, n)
  {
    hide Inv, Count, IsMeta, Clear, Roomy, Loose, CacheFine;
    var y: nat :| InRun(at, n, y) && Count(st, y) != 1;
    assert Count(s0, y) == 0;
    if Evolves(s0, st, at, n) {
      EvolvesAt(s0, st, at, n, y);
    }
  }

  /** A run that has come out right has all its regions covered, by blocks next to it. */
  lemma FineEnds(s0: Store, st: Store, at: nat, n: nat, top: nat, m: nat)
    requires Fine(s0, st, at, n, top, n, m) && top < Region(s0.b, at + n) && st.b == s0.b
    ensures SafeFrom(s0.b, at + n, top) && top + m == Region(s0.b, at + n) && m > 0
    ensures forall u: nat :: Covered(st, u) <==> u <= Region(s0.b, at + n)
    ensures st.free <= RegionEnd(s0.b, at + n)
  {
    hide Evolves;
    var last := Region(s0.b, at + n);
    RegionSpan(s0.b, at + n);
    if top + m < last {
      MulMono(top + m + 1, last, s0.b);
    }
    RegionSpan(s0.b, at + n + m);
  }

  /** The last cluster counted finds its block cached. */
  lemma FineLast(s0: Store, st: Store, at: nat, n: nat, top: nat, m: nat)
    requires Start(s0, at, n, top) && Running(s0, st, at, n, n - 1) && Fine(s0, st, at, n, top, n - 1, m)
    requires SafeFrom(s0.b, at + n, top)
    ensures Covered(st, Region(st.b, at + n - 1))
  {
    hide Inv, Count, IsMeta, Clear, Roomy, Loose, CacheFine, Evolves, Region;
    if !Covered(st, Region(st.b, at + n - 1)) {
      FineNext(s0, st, at, n, top, n - 1, m);
      SameRegion(st.b, at + n);
    }
  }

  /** A freshly allocated run that takes several regions without a block comes out right exactly when it is safe. */
  lemma RunExact(s0: Store, st: Store, at: nat, n: nat, top: nat)
    requires Start(s0, at, n, top) && RunStays(s0, at, n) && st == TallyRun(s0, at, n)
    ensures SafeFrom(s0.b, at + n, top) <==> Inv(st) && Evolves(s0, st, at, n)
    ensures SafeFrom(s0.b, at + n, top) ==> st.b == s0.b && st.free <= RegionEnd(s0.b, at + n)
    ensures SafeFrom(s0.b, at + n, top) ==> forall u: nat :: Covered(st, u) <==> u <= Region(s0.b, at + n)
    ensures forall x: nat :: x < at + n && IsMeta(st, x) ==> IsMeta(s0, x)
  {
    hide Stays, Tally, Start, Running, Fine, Outcome, Filled, Inv, Evolves, Region, Covered, IsMeta, SafeFrom, Wrong;
    StartFine(s0, at, n, top);
    StartSizes(s0, s0, at, n, top, 0);
    StartLength(s0, at, n, top);
    RunOutcome(s0, at, n, top, n);
    RunOutcome(s0, at, n, top, n - 1);
    RunningMeta(s0, st, at, n, n);
    if SafeFrom(s0.b, at + n, top) {
      var s1 := TallyRun(s0, at, n - 1);
      var m := OutcomeSafe(s0, s1, at, n, top, n - 1);
      FineLast(s0, s1, at, n, top, m);
      RunningCovered(s0, s1, at, n, top, n - 1);
      var m' := OutcomeSafe(s0, st, at, n, top, n);
      FineShape(s0, st, at, n, top, n, m');
      StartSizes(s0, st, at, n, top, n);
      FineEnds(s0, st, at, n, top, m');
    } else {
      UnsafeWrong(s0, st, at, n, top);
    }
  }

  lemma StartLength(s0: Store, at: nat, n: nat, top: nat)
    requires Start(s0, at, n, top)
    ensures n > 0
  {
  }

  lemma RunningMeta(s0: Store, st: Store, at: nat, n: nat, i: nat)
    requires Running(s0, st, at, n, i)
    ensures forall x: nat :: x < at + n && IsMeta(st, x) ==> IsMeta(s0, x)
  {
  }

  lemma OutcomeSafe(s0: Store, st: Store, at: nat, n: nat, top: nat, i: nat) returns (m: nat)
    requires Outcome(s0, st, at, n, top, i) && SafeFrom(s0.b, at + n, top)
    ensures Fine(s0, st, at, n, top, i, m)
  {
    m :| Fine(s0, st, at, n, top, i, m);
  }

  lemma UnsafeWrong(s0: Store, st: Store, at: nat, n: nat, top: nat)
    requires Start(s0, at, n, top) && Running(s0, st, at, n, n) && Outcome(s0, st, at, n, top, n)
    requires !SafeFrom(s0.b, at + n, top)
    ensures !Evolves(s0, st, at, n)
  {
    hide Start, Running, Fine, SafeFrom, Wrong, Evolves, Region;
    if m: nat :| Fine(s0, st, at, n, top, n, m) {
      StartSizes(s0, st, at, n, top, n);
      FineEnds(s0, st, at, n, top, m);
    } else {
      WrongUnsettled(s0, st, at, n, top);
    }
  }

  // ---------- Runs that need at most one block ----------

  lemma {:induction false} TallyRunBlanks(st: Store, at: nat, n: nat)
    requires RunStays(st, at, n)
    ensures Blanks(TallyRun(st, at, n).table) <= Blanks(st.table) && |TallyRun(st, at, n).table| == |st.table|
    ensures TallyRun(st, at, n).b == st.b
  {
    hide Stays, Tally, Blanks;
    if n > 0 {
      TallyRunBlanks(st, at, n - 1);
      TallyBlanks(TallyRun(st, at, n - 1), at + n - 1);
    }
  }

  lemma {:induction false} RunStaysPart(st: Store, at: nat, n: nat, i: nat)
    requires RunStays(st, at, n) && i <= n
    ensures RunStays(st, at, i)
    ensures i < n ==> Stays(TallyRun(st, at, i), at + i)
    decreases n
  {
    hide Stays, Tally;
    if i < n - 1 {
      RunStaysPart(st, at, n - 1, i);
    }
  }

  /** Such a run, without a longer table, comes out right. */
  lemma {:induction false} CountableRun(st: Store, at: nat, n: nat, i: nat)
    requires Inv(st) && RunCountable(st, at, n) && i <= n && (n > 0 ==> Region(st.b, at + n - 1) < |st.table|)
    requires forall x: nat :: InRun(at, n, x) ==> Count(st, x) < MAX_COUNT
    ensures RunStays(st, at, i)
    ensures var st' := TallyRun(st, at, i);
      && Inv(st') && Evolves(st, st', at, i) && RunCountable(st', at + i, n - i) && RunSettles(st, st', at, i)
      && (n > 0 ==> Unmoved(st, st', at + n - 1))
  {
    hide Inv, Count, Evolves, RunCountable, Settled, Settles, Countable, NextBlock, Stays, Tally, IsMeta, Covered,
         Reach, Region;
    if i == 0 {
      EvolvesSame(st, at);
      if n > 0 {
        UnmovedSame(st, at + n - 1);
      }
    } else {
      CountableRun(st, at, n, i - 1);
      var s1 := TallyRun(st, at, i - 1);
      TallyRunBlanks(st, at, i - 1);
      RunFirst(s1, at + i - 1, n - i + 1);
      RegionMono(st.b, at + i - 1, at + n - 1);
      CountableStays(s1, at + i - 1);
      assert InRun(at, n, at + i - 1);
      RunRoom(st, s1, at, i - 1, at + i - 1);
      CountableBefore(s1, at + i - 1, n - i + 1);
      TallyCounted(s1, at + i - 1);
      var s2 := Tally(s1, at + i - 1);
      EvolvesThen(st, s1, s2, at, i - 1, 1);
      RunSettlesThen(st, s1, s2, at, i - 1, n);
      if Settled(s1) {
        EvolvesSettled(s1, s2, at + i - 1, 1);
      }
      RunNext(s1, s2, at + i - 1, n - i + 1);
    }
  }

  lemma CountableBefore(st: Store, at: nat, n: nat)
    requires RunCountable(st, at, n) && n > 0
    ensures Covered(st, Region(st.b, at)) || at < st.free
  {
    RegionMono(st.b, at, at + n - 1);
  }
}

/** What the methods of the refcount store need to know about their steps. */
module RefcountAlloc {
  import opened Arith
  import opened Qcow2Format
  import opened Qcow2Grow
  import opened RefcountState
  import opened RefcountSteps
  import opened RefcountTally
  import opened RefcountRuns

  const EINVAL: int := 22

  /** What update_cluster_refcount returns for a cluster whose region has a block. */
  function Result(st: Store, c: nat, addend: int): int {
    var n := Count(st, c) + addend;
    if 0 <= n <= MAX_COUNT then n else -EINVAL
  }

  /** The store is in order and c, in use or about to be, can take another reference. */
  ghost predicate Addable(st: Store, c: nat) {
    Inv(st) && Count(st, c) < MAX_COUNT && (HasBlock(st, c) || c < st.free)
  }

  lemma NextIs(st: Store, x: nat)
    requires st.free <= x && Count(st, x) == 0 && forall s: nat :: st.free <= s < x ==> Count(st, s) > 0
    ensures NextBlock(st) == x
  {
    hide Count;
    assert Count(st, NextBlock(st)) == 0;
    assert x < NextBlock(st) ==> Count(st, x) > 0;
  }

  // ---------- A region with a block ----------

  lemma StaysSizes(st: Store, c: nat)
    requires Stays(st, c) && Covered(st, Region(st.b, c))
    ensures var at := st.table[Region(st.b, c)]; var s1 := Fetched(st, at);
      c % s1.b < |s1.cache| && c % s1.b < |BlockAt(s1.d, at)| && s1.b == st.b
  {
  }

  lemma FetchedCount(st: Store, c: nat)
    requires Inv(st) && Covered(st, Region(st.b, c))
    ensures var s1 := Fetched(st, st.table[Region(st.b, c)]);
      s1.b == st.b && c % st.b < |s1.cache| && s1.cache[c % st.b]
        == Count(st, c) <= MAX_COUNT && Inv(s1) && SameButCache(st, s1)
  {
    InvLoose(st);
    FetchedInv(st, Region(st.b, c));
    CachedCount(Fetched(st, st.table[Region(st.b, c)]), c);
    CountRange(st, c);
  }

  lemma FetchedRecounts(st: Store, c: nat)
    requires Inv(st) && Covered(st, Region(st.b, c)) && Count(st, c) > 0
    requires Count(st, c) == 1 ==> Settled(st) && !IsMeta(st, c) && c != 0
    ensures var at := st.table[Region(st.b, c)]; var s1, n := Fetched(st, at), Count(st, c) - 1;
      && c % s1.b < |s1.cache| && c % s1.b < |BlockAt(s1.d, at)|
      && Recounted(st, Saved(s1, at, c, n).(free := if n == 0 && c < st.free then c else st.free), c, n)
  {
    hide Inv, Count, Recounted, Settled, IsMeta;
    var at := st.table[Region(st.b, c)];
    var s1, n := Fetched(st, at), Count(st, c) - 1;
    InvLoose(st);
    FetchedInv(st, Region(st.b, c));
    FetchedCount(st, c);
    SameMeta(st, s1);
    if Settled(st) {
      SearchSettled(st, s1);
    }
    SaveRecounts(s1, c, n);
    RecountedCache(st, s1, Saved(s1, at, c, n).(free := if n == 0 && c < st.free then c else st.free), c, n);
  }

  lemma BumpIs(st: Store, c: nat)
    requires Stays(st, c) && Covered(st, Region(st.b, c))
    ensures var at := st.table[Region(st.b, c)]; Tally(st, c) == Bump(Fetched(st, at), at, c)
  {
  }

  /** Before a count in a region with a block is changed. */
  lemma CoveredUpdate(st: Store, c: nat, addend: int)
    requires Covered(st, Region(st.b, c)) && (Stays(st, c) || Inv(st))
    ensures Stays(st, c)
  {
    if Inv(st) {
      InvLoose(st);
      CoveredStays(st, c);
    }
  }

  lemma ResultRange(st: Store, c: nat, addend: int)
    requires Covered(st, Region(st.b, c)) && Stays(st, c) && (addend == 1 || addend == -1)
    ensures Inv(st) && addend == 1 && Count(st, c) >= MAX_COUNT ==> SameButCache(st, Tally(st, c)) && Inv(Tally(st, c))
  {
    hide Count, Stays, Tally, Inv;
    if Inv(st) && addend == 1 && Count(st, c) >= MAX_COUNT {
      FetchedCount(st, c);
      BumpIs(st, c);
    }
  }

  // ---------- A region without one ----------

  lemma MissingUpdate(st: Store, c: nat)
    requires !Covered(st, Region(st.b, c)) && Region(st.b, c) < |st.table|
    requires (Stays(st, c) || (Inv(st) && Countable(st, c)))
    ensures Stays(st, c)
  {
    hide Inv, Stays, Countable;
    if Inv(st) && Countable(st, c) {
      CountableStays(st, c);
    }
  }

  lemma StaysInside(st: Store, c: nat)
    requires Region(st.b, c) >= |st.table|
    ensures !Stays(st, c) && !HasBlock(st, c)
  {
  }

  lemma OneStays(st: Store, o: nat)
    requires Stays(st, o)
    ensures RunStays(st, o, 1) && TallyRun(st, o, 1) == Tally(st, o)
  {
    hide Stays, Tally;
    assert RunStays(st, o, 0) && TallyRun(st, o, 0) == st;
  }

  lemma MissingSizes(st: Store, c: nat)
    requires Stays(st, c) && !Covered(st, Region(st.b, c))
    ensures var o := NextBlock(st); var s2 := Tally(NewBlock(st, Region(st.b, c), o), o);
      c % s2.b < |s2.cache| && c % s2.b < |BlockAt(s2.d, o)|
  {
    hide Inv, Count, NextBlock, Stays, Tally, Loose, Filled, Marked, NewBlock;
    var t, o := Region(st.b, c), NextBlock(st);
    StaysMissing(st, c);
    NewBlockFilled(st, t, o);
    var st1 := NewBlock(st, t, o);
    NewBlockSizes(st, t, o);
    InvLoose(st1);
    TallyKeeps(st1, o);
    TallySizes(st1, Tally(st1, o), t, o);
  }

  lemma NewBlockSizes(st: Store, t: nat, o: nat)
    requires t < |st.table|
    ensures NewBlock(st, t, o).free == o + 1 && NewBlock(st, t, o).table == st.table[t := o]
    ensures NewBlock(st, t, o).b == st.b
  {
  }

  lemma TallySizes(st1: Store, s2: Store, t: nat, o: nat)
    requires Loose(s2) && Filled(st1, s2, o) && Marked(s2, o) && t < |st1.table| && st1.table[t] == o && o != 0
    ensures |s2.cache| == s2.b && |BlockAt(s2.d, o)| == s2.b
  {
    assert s2.table[t] == o;
    assert IsBlock(s2, s2.table[t]);
  }

  // ---------- Runs ----------

  lemma NoRun(st: Store, at: nat)
    ensures RunStays(st, at, 0) && TallyRun(st, at, 0) == st
  {
  }

  lemma TallyRunNext(st: Store, at: nat, i: nat)
    requires RunStays(st, at, i + 1)
    ensures RunStays(st, at, i) && TallyRun(st, at, i + 1) == Tally(TallyRun(st, at, i), at + i)
  {
    hide Stays, Tally;
  }

  /** A run that needs no longer table ends inside it. */
  lemma RunInside(st: Store, at: nat, n: nat)
    requires RunStays(st, at, n) && n > 0
    ensures Region(st.b, at + n - 1) < |st.table|
  {
    hide Tally;
    TallyRunBlanks(st, at, n - 1);
  }

  /** Before the table grows, no block has been made. */
  lemma BeyondBlanks(s0: Store, s1: Store, at: nat, i: nat, n: nat)
    requires i < n && Inv(s1) && Countable(s1, at + i) && RunCountable(s1, at + i, n - i) && Unmoved(s0, s1, at + n - 1)
    requires s1.b == s0.b
    ensures Stays(s1, at + i) || Blanks(s1.table) == Blanks(s0.table)
  {
    hide Inv, Stays, RunCountable, NextBlock, IsMeta, Reach;
    if Region(s1.b, at + i) < |s1.table| {
      CountableStays(s1, at + i);
    } else {
      RunFirst(s1, at + i, n - i);
    }
  }

  /** A cluster for which the table had to grow could be counted, and was. */
  lemma BeyondCounted(st: Store, st': Store, c: nat)
    requires Region(st.b, c) >= |st.table| && Countable(st, c) && Inv(st') && Evolves(st, st', c, 1)
    requires Settles(st, st', c)
    ensures Counted(st, st', c)
  {
    hide Inv, Evolves, Settles;
  }

  lemma GrowReach(st: Store, c: nat)
    requires Region(st.b, c) >= |st.table| && Region(st.b, st.free) == Region(st.b, c)
    ensures Reach(st, c) == st.free + GrownClusters(TableClusters(st), st.e, Region(st.b, c) + 1)
    ensures NewLength(st, c) == GrownClusters(TableClusters(st), st.e, Region(st.b, c) + 1) * st.e
  {
    hide GrownClusters;
    UncoveredFree(st, st.free);
  }

  lemma GrowInside(gs: Store, ta: nat, m: nat, t: nat)
    requires m > 0 && Region(gs.b, ta) == t == Region(gs.b, ta + m) && t < |gs.table|
    ensures Region(gs.b, ta + m - 1) < |gs.table|
  {
    RegionMono(gs.b, ta, ta + m - 1);
    RegionMono(gs.b, ta + m - 1, ta + m);
  }

  // ---------- Allocating ----------

  /** Wherever the run is found, the table covers it and, behind it, a block for every region. */
  ghost predicate Inside(st: Store, n: nat) {
    st.b >= 2 && forall at: nat :: FirstFit(st, st.free, at, n) ==> at + n + |st.table| <= |st.table| * st.b
  }

  /** New metadata lies right behind the run: a block, after a longer table if the run passes the end of the table. */
  ghost predicate Within(st: Store, st': Store, at: nat, n: nat) {
    var longer := if at + n > |st.table| * st.b then Longer(st) else 0;
    && (forall x: nat :: IsMeta(st', x) ==> IsMeta(st, x) || x <= at + n + longer)
    && st'.free <= at + n + longer + 1 && (forall u: nat :: Covered(st', u) ==> Covered(st, u) || u * st.b < at + n)
    && |st'.table| == (if longer == 0 then |st.table| else longer * st.e)
    && (at + n > |st.table| * st.b ==> Full(st))
  }

  /** A search cannot pass the first region without a block. */
  lemma TopBound(st: Store, at: nat, n: nat)
    requires Ready(st) && FirstFit(st, st.free, at, n)
    ensures at <= Top(st) * st.b && forall u: nat :: Covered(st, u) <==> u < Top(st)
  {
    hide Inv, Settled, Count;
    var top := Top(st);
    forall u: nat ensures Covered(st, u) <==> u < top {}
    if at > top * st.b {
      assert Blocked(st, top * st.b, n);
      var x: nat :| InRun(top * st.b, n, x) && Count(st, x) > 0;
      InRegion(st.b, top * st.b, top);
      RegionMono(st.b, top * st.b, x);
      UncoveredFree(st, x);
    }
  }

  /** A run counted right after the search either needs at most one block or takes several regions without one. */
  lemma AllocCase(st: Store, s1: Store, at: nat, n: nat)
    requires Ready(st) && 0 < n && (Fits(st, n) || Inside(st, n)) && FirstFit(st, st.free, at, n)
    requires Inv(s1) && SameButSearch(st, s1) && s1.free == at + n
    ensures RunCountable(s1, at, n) ==> Safe(st, at, n)
    ensures Fits(st, n) ==> RunCountable(s1, at, n)
    ensures !RunCountable(s1, at, n) ==>
      Start(s1, at, n, Top(st)) && (Safe(st, at, n) <==> SafeFrom(st.b, at + n, Top(st)))
  {
    hide Inv, Settled, Count, FirstFit, Ready, Fits, Inside, RunCountable, Safe, Start, SafeFrom, Region;
    var top, end := Top(st), at + n;
    TopBound(st, at, n);
    RegionSpan(st.b, end);
    if Fits(st, n) {
      AllocCountable(st, s1, at, n);
      FitsSafe(st, at, n);
    } else if end <= top * st.b || Region(st.b, end) == top {
      ShortSafe(st, at, n);
      InsideAt(st, at, n);
      ShortCountable(st, s1, at, n, top);
    } else {
      InsideAt(st, at, n);
      LongStart(st, s1, at, n, top);
      LongSafe(st, s1, at, n, top);
    }
  }

  lemma InsideAt(st: Store, at: nat, n: nat)
    requires Inside(st, n) && FirstFit(st, st.free, at, n)
    ensures st.b >= 2 && at + n + |st.table| <= |st.table| * st.b
  {
  }

  lemma ShortSafe(st: Store, at: nat, n: nat)
    requires at + n <= Top(st) * st.b || Region(st.b, at + n) == Top(st)
    ensures Safe(st, at, n)
  {
  }

  lemma FitsSafe(st: Store, at: nat, n: nat)
    requires Fits(st, n) && at <= Top(st) * st.b
    ensures Safe(st, at, n)
  {
    if at + n > Top(st) * st.b {
      InRegion(st.b, at + n, Top(st));
    }
  }

  lemma ShortCountable(st: Store, s1: Store, at: nat, n: nat, top: nat)
    requires 0 < n && SameButSearch(st, s1) && s1.free == at + n && (forall u: nat :: Covered(st, u) <==> u < top)
    requires at + n <= top * st.b || Region(st.b, at + n) == top
    requires at + n + |st.table| <= |st.table| * st.b
    ensures RunCountable(s1, at, n)
  {
    var t := Region(st.b, at + n - 1);
    RegionSpan(st.b, at + n - 1);
    RegionMono(st.b, at + n - 1, at + n);
    if at + n <= top * st.b && t >= top {
      MulMono(top, t, st.b);
    }
    InsideRegion(st, at + n);
    if t > top {
      MulMono(top + 1, t, st.b);
    }
    assert forall u: nat :: Covered(s1, u) <==> Covered(st, u);
  }

  lemma InsideRegion(st: Store, x: nat)
    requires x + |st.table| <= |st.table| * st.b && |st.table| > 0
    ensures Region(st.b, x) < |st.table|
  {
    if Region(st.b, x) >= |st.table| {
      MulMono(|st.table|, Region(st.b, x), st.b);
      RegionSpan(st.b, x);
    }
  }

  lemma LongStart(st: Store, s1: Store, at: nat, n: nat, top: nat)
    requires Ready(st) && 0 < n && Inv(s1) && SameButSearch(st, s1) && s1.free == at + n && FirstFit(st, st.free, at, n)
    requires (forall u: nat :: Covered(st, u) <==> u < top) && at <= top * st.b < at + n && Region(st.b, at + n) != top
    requires st.b >= 2 && at + n + |st.table| <= |st.table| * st.b
    ensures Start(s1, at, n, top)
  {
    hide Inv, Settled, Count, Region, Ahead, Prefix, Roomy, Blanks;
    SearchSettled(st, s1);
    LongFreeRun(st, s1, at, n);
    LongRoomy(st, s1);
    InRegion(st.b, top * st.b, top);
    RegionMono(st.b, top * st.b, at + n);
    assert forall u: nat :: Covered(s1, u) <==> Covered(st, u);
  }

  lemma LongFreeRun(st: Store, s1: Store, at: nat, n: nat)
    requires SameButSearch(st, s1) && FirstFit(st, st.free, at, n)
    ensures AllFree(s1, at, n)
  {
    hide Count;
    SearchCount(st, s1);
  }

  lemma LongRoomy(st: Store, s1: Store)
    requires s1.table == st.table && s1.b == st.b && s1.free + |st.table| <= |st.table| * st.b
    ensures Roomy(s1)
  {
    BlanksBound(st.table);
  }

  lemma LongSafe(st: Store, s1: Store, at: nat, n: nat, top: nat)
    requires Start(s1, at, n, top) && top == Top(st) && s1.b == st.b
    ensures !RunCountable(s1, at, n) && (Safe(st, at, n) <==> SafeFrom(st.b, at + n, top))
  {
    hide Inv, Settled, Count, Roomy, Region, TopFrom, GrowsInto;
    var t := Region(st.b, at + n - 1);
    RegionSpan(st.b, at + n - 1);
    InRegion(st.b, top * st.b, top);
    RegionMono(st.b, top * st.b, at + n - 1);
    RegionMono(st.b, at, top * st.b);
    RegionMono(st.b, at + n - 1, at + n);
    assert !Covered(s1, top) && !Covered(s1, t);
    StartInside(s1, at, n, top);
  }

  lemma StartInside(s1: Store, at: nat, n: nat, top: nat)
    requires Start(s1, at, n, top)
    ensures Region(s1.b, at + n - 1) < |s1.table|
  {
    hide Inv, Settled, Count;
    InsideTable(s1, at + n - 1);
  }

  lemma AllocStays(st: Store, s1: Store, at: nat, n: nat)
    requires Inv(s1) && SameButSearch(st, s1) && FirstFit(st, st.free, at, n) && n > 0
    requires RunCountable(s1, at, n) || Start(s1, at, n, Top(st))
    ensures RunStays(s1, at, n) || (RunCountable(s1, at, n) && Region(s1.b, at + n - 1) >= |s1.table|)
    ensures forall x: nat :: InRun(at, n, x) ==> Count(s1, x) < MAX_COUNT
  {
    hide Inv, Count, RunCountable, Start, RunStays, TallyRun, FirstFit, Region;
    AllocRoom(st, s1, at, n);
    if RunCountable(s1, at, n) {
      if Region(s1.b, at + n - 1) < |s1.table| {
        CountableRun(s1, at, n, n);
      }
    } else {
      RunOutcome(s1, at, n, Top(st), n);
    }
  }

  /** A run that needs at most one block. */
  lemma AllocCounted(st: Store, s1: Store, s2: Store, at: nat, n: nat)
    requires Ready(st) && 0 < n && (Fits(st, n) || Inside(st, n)) && FirstFit(st, st.free, at, n)
    requires Inv(s1) && SameButSearch(st, s1) && s1.free == at + n && RunCountable(s1, at, n)
    requires forall x: nat :: InRun(at, n, x) ==> Count(s1, x) < MAX_COUNT
    requires RunStays(s1, at, n) ==> s2 == TallyRun(s1, at, n)
    requires !RunStays(s1, at, n) ==>
      Inv(s2) && Evolves(s1, s2, at, n) && RunSettles(s1, s2, at, n) && Unmoved(s1, s2, at + n - 1)
    ensures Inv(s2) && Evolves(st, s2, at, n) && Ready(s2) && forall x: nat :: InRun(at, n, x) ==> !IsMeta(s2, x)
    ensures Fits(st, n) ==> Within(st, s2, at, n)
  {
    hide Inv, Count, Evolves, RunCountable, Settled, RunStays, TallyRun, FirstFit, Region, RunSettles, Unmoved, IsMeta,
         Fits, Inside, Ahead, Prefix, Within;
    if RunStays(s1, at, n) {
      RunInside(s1, at, n);
      CountableRun(s1, at, n, n);
    }
    AllocDone(st, s1, s2, at, n);
    AllocOrder(st, s1, s2, at, n);
    if Fits(st, n) {
      AllocWithin(st, s1, s2, at, n);
    }
  }

  lemma AllocOrder(st: Store, s1: Store, s2: Store, at: nat, n: nat)
    requires Ready(st) && 0 < n && (Fits(st, n) || Inside(st, n)) && FirstFit(st, st.free, at, n)
    requires SameButSearch(st, s1) && s1.free == at + n && RunSettles(s1, s2, at, n) && RunCountable(s1, at, n)
    ensures Ahead(s2) && Prefix(s2)
  {
    hide Inv, Count, Settled, RunCountable, FirstFit, Fits, Inside;
    if Fits(st, n) {
      AllocAhead(st, s1, s2, at, n);
    } else {
      TopBound(st, at, n);
      ShortOrder(st, s1, s2, at, n, Top(st));
    }
  }

  lemma ShortOrder(st: Store, s1: Store, s2: Store, at: nat, n: nat, top: nat)
    requires 0 < n && SameButSearch(st, s1) && s1.free == at + n && RunSettles(s1, s2, at, n)
    requires at <= top * st.b && forall u: nat :: Covered(st, u) <==> u < top
    requires RunCountable(s1, at, n)
    ensures Ahead(s2) && Prefix(s2)
  {
    hide Inv, Count, Settled, GrowsInto, IsMeta;
    var t := Region(st.b, at + n - 1);
    RegionSpan(st.b, at + n - 1);
    RegionMono(st.b, at, at + n - 1);
    assert forall u: nat :: Covered(s1, u) <==> Covered(st, u);
    assert InRun(at, n, at + n - 1);
    if t >= top {
      MulMono(top, t, st.b);
      InRegion(st.b, top * st.b, top);
      RegionMono(st.b, at, top * st.b);
    } else {
      MulMono(t + 1, top, st.b);
    }
    forall u: nat | !Covered(s2, u) ensures s2.free <= u * s2.b {
      MulMono(if t < top then top else t + 1, u, st.b);
    }
  }

  lemma AllocWithin(st: Store, s1: Store, s2: Store, at: nat, n: nat)
    requires Ready(st) && 0 < n && Fits(st, n) && FirstFit(st, st.free, at, n)
    requires SameButSearch(st, s1) && s1.free == at + n && RunSettles(s1, s2, at, n) && Unmoved(s1, s2, at + n - 1)
    ensures Within(st, s2, at, n)
  {
    hide Inv, Count, Settled, FirstFit, Region, Longer, IsMeta, NewLength, Reach, Ready, RunSettles, GrownClusters,
         TopFrom, Full;
    TopBound(st, at, n);
    TopInside(st);
    assert SameTables(st, s1);
    SameMeta(st, s1);
    NewCovered(st, s1, s2, at, n);
    var top, t := Top(st), Region(st.b, at + n - 1);
    RegionSpan(st.b, at + n - 1);
    if t < top {
      MulMono(t + 1, |st.table|, st.b);
      assert Covered(st, t) && Covered(s1, Region(s1.b, at + n - 1));
      SameMeta(s1, s2);
    } else {
      MulMono(top, t, st.b);
      InRegion(st.b, at + n - 1, top);
      InRegion(st.b, at + n, top);
      AllocReach(st, s1, at, n, top);
      RunCovers(s1, s2, at, n);
    }
  }

  lemma NewCovered(st: Store, s1: Store, s2: Store, at: nat, n: nat)
    requires n > 0 && SameButSearch(st, s1) && RunSettles(s1, s2, at, n)
    ensures forall u: nat :: Covered(s2, u) ==> Covered(st, u) || u * st.b < at + n
  {
    hide IsMeta;
    forall u: nat | Covered(s2, u) ensures Covered(st, u) || u * st.b < at + n {
      if !Covered(s1, u) {
        MulMono(u, Region(st.b, at + n - 1), st.b);
        RegionSpan(st.b, at + n - 1);
      }
    }
  }

  lemma RunCovers(s1: Store, s2: Store, at: nat, n: nat)
    requires RunSettles(s1, s2, at, n) && n > 0
    ensures Covered(s2, Region(s1.b, at + n - 1))
  {
    assert InRun(at, n, at + n - 1);
  }

  lemma TopInside(st: Store)
    ensures Top(st) <= |st.table| && (Top(st) == |st.table| <==> Full(st))
  {
    var top := Top(st);
    assert !Covered(st, |st.table|);
    if top == |st.table| {
      forall t | 0 <= t < |st.table| ensures st.table[t] != 0 {
        assert Covered(st, t);
      }
    }
  }

  /** What lies within reach of a run that ends in the first region without a block. */
  lemma AllocReach(st: Store, s1: Store, at: nat, n: nat, top: nat)
    requires SameButSearch(st, s1) && s1.free == at + n && n > 0 && !Covered(st, top) && top <= |st.table|
    requires (top == |st.table| <==> Full(st))
    requires Region(st.b, at + n - 1) == top == Region(st.b, at + n) && at <= top * st.b && n < st.b
    ensures var longer := if at + n > |st.table| * st.b then Longer(st) else 0;
      && Reach(s1, at + n - 1) == at + n + longer
      && NewLength(s1, at + n - 1) == (if longer == 0 then |st.table| else longer * st.e)
      && (at + n > |st.table| * st.b <==> top == |st.table|)
  {
    hide GrownClusters;
    UncoveredFree(s1, s1.free);
    RegionSpan(st.b, at + n - 1);
    RegionSpan(st.b, at + n);
    if top < |st.table| {
      MulMono(top + 1, |st.table|, st.b);
    }
  }

  /** A run that takes several regions without a block. */
  lemma AllocLong(st: Store, s1: Store, s2: Store, at: nat, n: nat)
    requires Ready(st) && 0 < n && FirstFit(st, st.free, at, n) && SameButSearch(st, s1) && Start(s1, at, n, Top(st))
    requires RunStays(s1, at, n) && s2 == TallyRun(s1, at, n)
    ensures SafeFrom(st.b, at + n, Top(st)) <==> Inv(s2) && Evolves(st, s2, at, n)
    ensures SafeFrom(st.b, at + n, Top(st)) ==> Ready(s2) && forall x: nat :: InRun(at, n, x) ==> !IsMeta(s2, x)
  {
    hide Inv, Count, Evolves, Settled, RunStays, TallyRun, FirstFit, Region, IsMeta, Start, SafeFrom, Ahead, Prefix;
    RunExact(s1, s2, at, n, Top(st));
    SearchEvolves(st, s1, s2, at, n);
    if SafeFrom(st.b, at + n, Top(st)) {
      EvolvesSettled(st, s2, at, n);
      LongOrder(s1, s2, at, n);
      forall x: nat | InRun(at, n, x) ensures !IsMeta(s2, x) {
        LongFree(st, s1, at, n, x);
      }
    }
  }

  lemma SearchEvolves(st: Store, s1: Store, s2: Store, at: nat, n: nat)
    requires SameButSearch(st, s1)
    ensures Evolves(st, s2, at, n) <==> Evolves(s1, s2, at, n)
  {
    hide Count, IsMeta;
    SearchCount(st, s1);
    SameMeta(st, s1);
  }

  lemma LongOrder(s1: Store, s2: Store, at: nat, n: nat)
    requires s2.b == s1.b && s2.free <= RegionEnd(s1.b, at + n)
    requires forall u: nat :: Covered(s2, u) <==> u <= Region(s1.b, at + n)
    ensures Ahead(s2) && Prefix(s2)
  {
    forall u: nat | !Covered(s2, u) ensures s2.free <= u * s2.b {
      MulMono(Region(s1.b, at + n) + 1, u, s1.b);
    }
  }

  lemma LongFree(st: Store, s1: Store, at: nat, n: nat, x: nat)
    requires Ready(st) && FirstFit(st, st.free, at, n) && SameButSearch(st, s1) && InRun(at, n, x)
    ensures !IsMeta(s1, x)
  {
    hide Count, IsMeta;
    SameMeta(st, s1);
    assert Count(st, x) == 0;
  }

  // ---------- The first run in a new file ----------

  lemma FitUnique(st: Store, from: nat, a: nat, b: nat, n: nat)
    requires FirstFit(st, from, a, n) && FirstFit(st, from, b, n)
    ensures a == b
  {
    hide Count;
    assert a < b ==> Blocked(st, a, n);
    assert b < a ==> Blocked(st, b, n);
  }

  /** In a store whose clusters from f on are free, and none before, a run is found at f. */
  lemma FreshFit(st: Store, f: nat, n: nat)
    requires (forall c: nat :: Count(st, c) == B(c < f)) && st.free == 0 && st.b >= 2 && n > 0
    requires f + n + |st.table| <= |st.table| * st.b
    ensures FirstFit(st, st.free, f, n) && Inside(st, n)
  {
    hide Count;
    forall s: nat | s < f ensures Blocked(st, s, n) {
      assert InRun(s, n, s) && Count(st, s) == 1;
    }
    forall at: nat | FirstFit(st, st.free, at, n) ensures at + n + |st.table| <= |st.table| * st.b {
      FitUnique(st, st.free, at, f, n);
    }
  }
}

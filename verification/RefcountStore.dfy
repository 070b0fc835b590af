/** The functions that read and change refcounts. */
module RefcountStore {
  import opened Qcow2Format
  import opened Qcow2Grow
  import opened RefcountState
  import opened RefcountSteps
  import opened RefcountTally
  import opened RefcountRuns
  import opened RefcountAlloc
  import opened RefcountLink

  class RefcountStore {
    var st: Store

    /** As qcow_create leaves it: the header, n clusters of L1 table, one cluster of refcount table and one block. */
    constructor (b: Pos, e: Pos, d: Disk, n: nat)
      requires n + 3 <= b
      ensures st == FreshStore(b, e, d, n) && Ready(st) && forall c: nat :: Count(st, c) == B(c < n + 3)
    {
      st := FreshStore(b, e, d, n);
      new;
      FreshReady(b, e, d, n);
    }

    /** Take over the file, the clusters of the store itself apart. */
    method Borrow(d: Disk)
      modifies this
      ensures st == Lent(old(st), d)
    {
      st := Lent(st, d);
    }

    method LoadRefcountBlock(x: nat)
      modifies this
      ensures st == Loaded(old(st), x)
    {
      st := Loaded(st, x);
    }

    method GetRefcount(c: nat) returns (n: nat)
      requires Inv(st)
      modifies this
      ensures Inv(st) && SameButCache(old(st), st) && n == Count(st, c) == Count(old(st), c)
    {
      var t := Region(st.b, c);
      if t >= |st.table| {
        return 0;
      }
      var at := st.table[t];
      if at == 0 {
        return 0;
      }
      assert IsBlock(st, at);
      if at != st.cacheAt {
        LoadedInv(st, t);
        LoadRefcountBlock(at);
      }
      n := st.cache[c % st.b];
    }

    method Advance()
      requires Inv(st)
      modifies this
      ensures Inv(st) && st == old(st).(free := old(st.free) + 1)
    {
      SearchInv(st, st.free + 1);
      st := st.(free := st.free + 1);
    }

    /** Step over free clusters until n are found or one is in use. */
    method RunFrom(n: nat) returns (i: nat)
      requires Inv(st)
      modifies this
      ensures Inv(st) && SameButSearch(old(st), st) && st.free == old(st.free) + i && AllFree(old(st), old(st.free), i)
      ensures i <= n || (n == 0 && i == 1)
      ensures i == 0 || i < n ==> Count(old(st), st.free) > 0
    {
      hide Inv, Count;
      ghost var s0 := st;
      i := 0;
      var count := GetRefcount(st.free);
      while count == 0 && (i == 0 || i < n)
        invariant i <= n || (n == 0 && i == 1)
        invariant Inv(st) && SameButSearch(s0, st) && st.free == s0.free + i && AllFree(s0, s0.free, i)
        invariant i == 0 || i < n ==> count == Count(s0, st.free)
        decreases n + 1 - i
      {
        Advance();
        i := i + 1;
        if i < n {
          count := GetRefcount(st.free);
          SearchCount(s0, st);
        }
      }
    }

    /** The first run of n free clusters from the search position on. */
    method AllocClustersNoref(n: nat) returns (at: nat)
      requires Inv(st)
      modifies this
      ensures Inv(st) && SameButSearch(old(st), st)
      ensures n > 0 ==> FirstFit(old(st), old(st.free), at, n) && st.free == at + n
      ensures n == 0 ==> at == st.free == NextBlock(old(st)) + 1
    {
      hide Inv, NextBlock;
      ghost var s0 := st;
      while true
        invariant Inv(st) && SameButSearch(s0, st) && s0.free <= st.free
        invariant n > 0 ==> forall s: nat :: s0.free <= s < st.free ==> Blocked(s0, s, n)
        invariant n == 0 ==> forall s: nat :: s0.free <= s < st.free ==> Count(s0, s) > 0
        decreases |s0.table| * s0.b - st.free
      {
        ghost var start := st.free;
        SearchCount(s0, st);
        var i := RunFrom(n);
        if i > 0 && i >= n {
          if n == 0 {
            NextIs(s0, start);
          }
          return st.free - n;
        }
        if n > 0 {
          BlockedBy(s0, start, i, n);
        }
        CountBelow(s0, st.free);
        Advance();
      }
    }

    // ---------- Changing counts ----------

    /** Change the cached count of c and save it in the block at `at`. */
    method SaveCount(at: nat, c: nat, addend: int) returns (r: int)
      requires c % st.b < |st.cache| && c % st.b < |BlockAt(st.d, at)|
      modifies this
      ensures var n := old(st.cache[c % st.b]) + addend;
        if n < 0 || n > MAX_COUNT then r == -EINVAL && st == old(st)
        else r == n && st == Saved(old(st), at, c, n).(free := if n == 0 && c < old(st.free) then c else old(st.free))
    {
      var n := st.cache[c % st.b] + addend;
      if n < 0 || n > MAX_COUNT {
        return -EINVAL;
      }
      if n == 0 && c < st.free {
        st := st.(free := c);
      }
      st := Saved(st, at, c, n);
      r := n;
    }

    /** Bring the block of c's region into the cache. */
    method Fetch(c: nat) returns (at: nat)
      requires Covered(st, Region(st.b, c))
      modifies this
      ensures at == old(st).table[Region(old(st).b, c)] && st == Fetched(old(st), at)
    {
      at := st.table[Region(st.b, c)];
      if at != st.cacheAt {
        LoadRefcountBlock(at);
      }
    }

    /** Change the count of c, whose region has a block. */
    method UpdateCovered(c: nat, addend: int) returns (r: int)
      requires Covered(st, Region(st.b, c)) && Stays(st, c) && (addend == 1 || addend == -1)
      requires addend == -1 ==> Inv(st) && (Count(st, c) == 1 ==> Settled(st) && !IsMeta(st, c) && c != 0)
      modifies this
      ensures addend == 1 ==> st == Tally(old(st), c) && (Inv(old(st)) ==> r == Result(old(st), c, 1))
      ensures addend == -1 ==> r == Result(old(st), c, -1)
      ensures addend == -1 && Count(old(st), c) == 0 ==> SameButCache(old(st), st) && Inv(st)
      ensures addend == -1 && Count(old(st), c) > 0 ==> Recounted(old(st), st, c, Count(old(st), c) - 1)
    {
      hide Inv, Count, Recounted, Settled, IsMeta;
      ghost var s0 := st;
      StaysSizes(s0, c);
      var at := Fetch(c);
      if Inv(s0) {
        FetchedCount(s0, c);
      }
      if addend == -1 && Count(s0, c) > 0 {
        FetchedRecounts(s0, c);
      }
      r := SaveCount(at, c, addend);
      if addend == 1 {
        BumpIs(s0, c);
      }
    }

    /** Allocate an empty refcount block for region t. */
    method CreateBlock(t: nat) returns (o: nat)
      requires Inv(st) && t < |st.table| && st.table[t] == 0
      modifies this
      ensures o == NextBlock(old(st)) && o != 0 && Count(old(st), o) == 0 && o >= old(st.free)
      ensures st == NewBlock(old(st), t, o) && Inv(st)
    {
      ghost var s0 := st;
      o := AllocClustersNoref(1);
      FitIsFirst(s0, s0.free, o);
      NewBlockInv(s0, t, o);
      st := NewBlock(st, t, o);
    }

    /** Count c, whose region has no block yet: a new block is made for it, and counted first. */
    method UpdateMissing(c: nat) returns (r: int)
      requires Stays(st, c) && !Covered(st, Region(st.b, c))
      modifies this
      ensures st == Tally(old(st), c)
      decreases 0, Blanks(st.table), 1
    {
      hide Inv, Count, NextBlock, Stays, Tally;
      ghost var s0 := st;
      var t := Region(st.b, c);
      StaysMissing(s0, c);
      var o := CreateBlock(t);
      NewBlockFilled(s0, t, o);
      OneStays(st, o);
      CountRun(o, 1);
      ghost var s2 := st;
      MissingSizes(s0, c);
      r := SaveCount(o, c, 1);
    }

    /** update_refcount with addend 1, for a run of n clusters. */
    method CountRun(at: nat, n: nat)
      requires RunStays(st, at,
        n) || (Inv(st) && RunCountable(st, at, n) && n > 0 && Region(st.b, at + n - 1) >= |st.table|)
      requires RunStays(st, at, n) || forall x: nat :: InRun(at, n, x) ==> Count(st, x) < MAX_COUNT
      modifies this
      ensures RunStays(old(st), at, n) ==> st == TallyRun(old(st), at, n)
      ensures !RunStays(old(st), at, n) ==>
        Inv(st) && Evolves(old(st), st, at, n) && RunSettles(old(st), st, at, n) && Unmoved(old(st), st, at + n - 1)
      decreases if RunStays(st, at, n) then 0 else 1, Blanks(st.table), 3
    {
      hide Inv, Count, Evolves, RunCountable, Settled, Settles, Countable, NextBlock, Stays, Tally, IsMeta, Covered,
           Reach, Region, RunStays;
      ghost var s0, stays := st, RunStays(st, at, n);
      EvolvesSame(s0, at);
      NoRun(s0, at);
      if n > 0 {
        UnmovedSame(s0, at + n - 1);
      }
      var i := 0;
      while i < n
        invariant i <= n
        invariant stays ==> RunStays(s0, at, i) && st == TallyRun(s0, at, i)
        invariant !stays ==> Inv(st) && Evolves(s0, st, at, i) && RunCountable(st, at + i, n - i)
        invariant !stays ==> RunSettles(s0, st, at, i) && Unmoved(s0, st, at + n - 1) && st.b == s0.b
      {
        ghost var s1 := st;
        if stays {
          RunStaysPart(s0, at, n, i);
          RunStaysPart(s0, at, n, i + 1);
          TallyRunBlanks(s0, at, i);
          TallyRunNext(s0, at, i);
        } else {
          RunFirst(s1, at + i, n - i);
          assert InRun(at, n, at + i);
          RunRoom(s0, s1, at, i, at + i);
          CountableBefore(s1, at + i, n - i);
          BeyondBlanks(s0, s1, at, i, n);
        }
        var _ := UpdateClusterRefcount(at + i, 1);
        if !stays {
          EvolvesThen(s0, s1, st, at, i, 1);
          RunSettlesThen(s0, s1, st, at, i, n);
          if Settled(s1) {
            EvolvesSettled(s1, st, at + i, 1);
          }
          RunNext(s1, st, at + i, n - i);
        }
        i := i + 1;
      }
    }

    /** Change the count of one cluster. While the table need not grow, counting goes well exactly when the cluster's
        region has a block or gets one that lies in the region it covers. */
    method UpdateClusterRefcount(c: nat, addend: int) returns (r: int)
      requires addend == 1 || addend == -1
      requires addend == -1 ==> Inv(st) && Settled(st) && (Count(st, c) == 1 ==> !IsMeta(st, c) && c != 0)
      requires addend == 1 ==> Stays(st, c) || (Inv(st) && Countable(st, c))
      modifies this
      ensures Inv(old(st)) && !(0 <= Count(old(st), c) + addend <= MAX_COUNT) ==>
        r == -EINVAL && SameButCache(old(st), st) && Inv(st)
      ensures addend == -1 && Count(old(st), c) > 0 ==>
        r == Count(old(st), c) - 1 && Recounted(old(st), st, c, Count(old(st), c) - 1)
      ensures addend == 1 && Stays(old(st), c) ==> st == Tally(old(st), c)
      ensures addend == 1 && Inv(old(st)) && HasBlock(old(st), c) && Count(old(st), c) < MAX_COUNT ==>
        r == Count(old(st), c) + 1
      ensures addend == 1 && Addable(old(st), c) ==> Counted(old(st), st, c)
      decreases if addend < 0 || Stays(st, c) then 0 else 1,
                if addend < 0 then 0 else Blanks(st.table),
                if addend < 0 then 0 else 2
    {
      hide Inv, Count, Evolves, Recounted, Settled, Settles, NextBlock, GrowsInto, IsMeta, Stays, Tally, Countable;
      ghost var s0 := st;
      var t := Region(st.b, c);
      if t < |st.table| && st.table[t] != 0 {
        CoveredUpdate(s0, c, addend);
        r := UpdateCovered(c, addend);
        ResultRange(s0, c, addend);
        if Inv(s0) {
          CountRange(s0, c);
        }
      } else {
        UncoveredFree(s0, c);
        if addend < 0 {
          return -EINVAL;
        }
        if t >= |st.table| {
          StaysInside(s0, c);
          r := UpdateBeyond(c);
          BeyondCounted(s0, st, c);
        } else {
          MissingUpdate(s0, c);
          r := UpdateMissing(c);
        }
      }
      if addend == 1 && t < |s0.table| && Addable(s0, c) {
        TallyCounted(s0, c);
      }
    }

    /** Count c, which lies beyond what the table covers: the table grows, and its new clusters bring the block. */
    method UpdateBeyond(c: nat) returns (r: int)
      requires Inv(st) && Region(st.b, c) >= |st.table| && Countable(st, c)
      modifies this
      ensures Inv(st) && Evolves(old(st), st, c, 1) && Settles(old(st), st, c)
      decreases 1, Blanks(st.table), 1
    {
      hide Inv, Count, Evolves, Recounted, Countable, GrowsInto, Settles, Stays, Tally, Reach, NewLength, GrownClusters,
           IsMeta, Region, Loose;
      ghost var s0 := st;
      GrowRegion(s0, c);
      GrowReach(s0, c);
      GrowRefcountTable(Region(st.b, c) + 1);
      ghost var s1 := st;
      UncoveredFree(s0, c);
      RunRoom(s0, s1, 0, 0, c);
      InvLoose(s1);
      CoveredStays(s1, c);
      r := UpdateCovered(c, 1);
      TallyRecounts(s1, c);
      EvolvesLast(s0, s1, st, c);
      BeyondSettles(s0, s1, st, c);
    }

    method GrowRefcountTable(min: nat)
      requires Inv(st) && |st.table| < min && Region(st.b, st.free) == min - 1 && GrowsInto(st, min - 1)
      modifies this
      ensures Inv(st) && Evolves(old(st), st, 0, 0) && st.b == old(st.b)
      ensures |st.table| == GrownClusters(TableClusters(old(st)), old(st.e), min) * old(st.e) >= min
      ensures forall u: nat :: Covered(st, u) <==> Covered(old(st), u) || u == min - 1
      ensures st.free <= min * st.b
      ensures st.free <= old(st.free) + GrownClusters(TableClusters(old(st)), old(st.e), min) + 1
      ensures forall x: nat :: IsMeta(st, x) ==>
        IsMeta(old(st), x) || old(st.free) <= x <= old(st.free) + GrownClusters(TableClusters(old(st)), old(st.e), min)
      decreases 1, Blanks(st.table), 0
    {
      hide Inv, Count, Evolves, Released, RunCountable, Grown, Settled, FirstFit, AllFree, IsMeta, RunStays, TallyRun,
           RunSettles, Unmoved, GrownClusters;
      ghost var s0 := st;
      var k := TableClusters(st);
      var m := NewTableSize(k, min);
      var ta := AllocClustersNoref(m);
      ghost var s1 := st;
      GrowPlace(s0, ta, m);
      FitFree(s0, ta, m);
      GrowReady(s0, s1, ta, m, min - 1);
      GrownFields(s1, ta, m);
      var at := st.tableAt;
      st := Grown(st, ta, m);
      ghost var gs := st;
      GrowClear(s0, gs, min - 1);
      GrowInside(gs, ta, m, min - 1);
      CountableRun(gs, ta, m, m);
      TallyRunBlanks(gs, ta, m);
      CountRun(ta, m);
      ghost var s2 := st;
      SearchGrown(s0, s1, s2, ta, m);
      GrowSettles(s0, s2, ta, m);
      ReleaseRun(at, k);
      GrowEvolves(s0, s2, st, ta, m);
      GrowCovers(s0, gs, s2, st, ta, m, min - 1);
    }

    /** Half as many clusters again, until the table holds `min` entries. */
    method NewTableSize(k: nat, min: nat) returns (m: nat)
      ensures m == GrownClusters(k, st.e, min)
    {
      hide GrownClusters;
      m := if k == 0 then 1 else (k * 3 + 1) / 2;
      GrownUnfold(k, st.e, min);
      while m * st.e < min
        invariant m > 0 && GrownClusters(k, st.e, min) == if min <= m * st.e then m else GrownClusters(m, st.e, min)
        decreases min - m
      {
        if m >= min {
          LongEnough(m, st.e, min);
        }
        GrownUnfold(m, st.e, min);
        m := (m * 3 + 1) / 2;
      }
    }

    /** update_refcount with addend -1, for a run of n clusters in use. */
    method ReleaseRun(at: nat, n: nat)
      requires Inv(st) && Settled(st) && forall x: nat :: InRun(at, n, x) ==>
        Count(st, x) > 0 && !IsMeta(st, x) && x != 0
      modifies this
      ensures Released(old(st), st, at, n) && Inv(st)
      decreases 0, 0, 1
    {
      hide Inv, Count, Recounted, Settled, Released, IsMeta, Countable;
      ghost var s0 := st;
      var i := 0;
      ReleasedNone(s0, at);
      while i < n
        invariant i <= n && Released(s0, st, at, i) && Inv(st) && Settled(st)
      {
        ghost var s1 := st;
        assert InRun(at, n, at + i);
        ReleasedRest(s0, s1, at, i);
        var _ := UpdateClusterRefcount(at + i, -1);
        ReleasedNext(s0, s1, st, at, i);
        RecountedSettled(s1, st, at + i, Count(s1, at + i) - 1);
        i := i + 1;
      }
    }

    // ---------- Allocating ----------

    /** A fresh run of n clusters, each counted once, with the refcount metadata made on the way outside it. It comes
        out right exactly when it is safe. */
    method AllocClusters(n: nat) returns (at: nat)
      requires Ready(st) && (n == 0 || Fits(st, n) || Inside(st, n))
      modifies this
      ensures n == 0 ==> Inv(st) && Settled(st) && SameButSearch(old(st), st) && at == st.free == NextBlock(old(st)) + 1
      ensures n > 0 ==> FirstFit(old(st), old(st.free), at, n)
      ensures n > 0 ==> (Safe(old(st), at, n) <==> Inv(st) && Evolves(old(st), st, at, n))
      ensures n > 0 && Safe(old(st), at, n) ==> Ready(st) && forall x: nat :: InRun(at, n, x) ==> !IsMeta(st, x)
      ensures n > 0 && Fits(old(st), n) ==> Safe(old(st), at, n) && Within(old(st), st, at, n)
    {
      hide Inv, Count, Evolves, Settled, Ahead, Prefix, FirstFit, RunCountable, Fits, Inside, Safe, IsMeta, RunStays,
           TallyRun, Start, Within;
      ghost var s0 := st;
      at := AllocClustersNoref(n);
      ghost var s1 := st;
      if n == 0 {
        SearchSettled(s0, s1);
        NoRun(s1, at);
      } else {
        AllocCase(s0, s1, at, n);
        AllocStays(s0, s1, at, n);
      }
      CountRun(at, n);
      if n == 0 {
      } else if RunCountable(s1, at, n) {
        AllocCounted(s0, s1, st, at, n);
      } else {
        AllocLong(s0, s1, st, at, n);
      }
    }

    /** Each cluster of the run loses a reference. */
    method FreeClusters(at: nat, n: nat)
      requires Inv(st) && Settled(st) && Prefix(st)
      requires forall x: nat :: InRun(at, n, x) ==> Count(st, x) > 0 && !IsMeta(st, x) && x != 0
      requires Ahead(st) || exists x: nat :: InRun(at, n, x) && Count(st, x) == 1
      modifies this
      ensures Ready(st) && Released(old(st), st, at, n)
    {
      hide Count, IsMeta, Inv, Settled, Ahead, Prefix, Released;
      ghost var s0 := st;
      ReleaseRun(at, n);
      ReleasedReady(s0, st, at, n);
    }
  }
}

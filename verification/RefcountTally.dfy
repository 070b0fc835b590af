/**
 What counting a cluster does when the block made for its region may lie anywhere: the block is counted first, by
 the same steps, and may leave the cache holding another block.
 */
module RefcountTally {
  import opened Arith
  import opened Qcow2Format
  import opened Qcow2Grow
  import opened RefcountState
  import opened RefcountSteps

  // ---------- The steps ----------

  function Fetched(st: Store, x: nat): Store { if x == st.cacheAt then st else Loaded(st, x) }

  /** One more reference to c, as the cache has it, saved in the block at `at`. */
  function Bump(st: Store, at: nat, c: nat): Store {
    var i := c % st.b;
    if i < |st.cache| && i < |BlockAt(st.d, at)| && st.cache[i] < MAX_COUNT then Saved(st, at, c, st.cache[i] + 1)
      else st
  }

  /** Entries of the table without a block. */
  function Blanks(table: seq<nat>): nat {
    if table == [] then 0 else Blanks(table[..|table| - 1]) + B(table[|table| - 1] == 0)
  }

  lemma {:induction false} BlanksFilled(table: seq<nat>, t: nat, o: nat)
    requires t < |table| && table[t] == 0 && o != 0
    ensures Blanks(table[t := o]) + 1 == Blanks(table)
  {
    var n := |table| - 1;
    if t == n {
      assert table[t := o][..n] == table[..n];
    } else {
      assert table[t := o][..n] == table[..n][t := o];
      BlanksFilled(table[..n], t, o);
    }
  }

  lemma {:induction false} BlanksBound(table: seq<nat>)
    ensures Blanks(table) <= |table|
  {
    if table != [] {
      BlanksBound(table[..|table| - 1]);
    }
  }

  lemma FreeIsNew(st: Store)
    requires Inv(st)
    ensures NextBlock(st) != 0 && Count(st, NextBlock(st)) == 0 && NextBlock(st) >= st.free
  {
  }

  /** Counting c needs no longer table, and neither does counting the blocks made on the way. */
  ghost predicate Stays(st: Store, c: nat)
    decreases Blanks(st.table)
  {
    var t := Region(st.b, c);
    t < |st.table| &&
    if st.table[t] != 0 then IsBlock(st, st.table[t]) && (st.cacheAt == st.table[t] ==> |st.cache| == st.b)
    else
      Inv(st) &&
      var o := NextBlock(st);
      FreeIsNew(st); BlanksFilled(st.table, t, o);
      Stays(NewBlock(st, t, o), o)
  }

  /** update_cluster_refcount with addend 1, in that case. */
  ghost function Tally(st: Store, c: nat): Store
    requires Stays(st, c)
    decreases Blanks(st.table)
  {
    var t := Region(st.b, c);
    if st.table[t] != 0 then Bump(Fetched(st, st.table[t]), st.table[t], c)
    else
      var o := NextBlock(st);
      FreeIsNew(st); BlanksFilled(st.table, t, o);
      Bump(Tally(NewBlock(st, t, o), o), o, c)
  }

  // ---------- What every count keeps ----------

  /** Counts only grow in the cache before they do in the block it was loaded from. */
  predicate LooseCache(st: Store) {
    st.cacheAt != 0 ==>
      && st.cacheAt in st.table && |st.cache| == st.b
      && forall i :: 0 <= i < |st.cache| && i < |BlockAt(st.d, st.cacheAt)| ==>
        BlockAt(st.d, st.cacheAt)[i] <= st.cache[i]
  }

  /** All that Inv says, but for a cache ahead of its block. */
  ghost predicate Loose(st: Store) { BlocksOK(st) && TableOK(st) && HeldOK(st) && LooseCache(st) }

  lemma InvLoose(st: Store)
    requires Inv(st)
    ensures Loose(st)
  {
    if st.cacheAt != 0 {
      var t :| 0 <= t < |st.table| && st.table[t] == st.cacheAt;
      assert IsBlock(st, st.table[t]);
    }
  }

  /** Loading a block puts the cache right. */
  lemma FetchedInv(st: Store, t: nat)
    requires Loose(st) && Covered(st, t) && (Inv(st) || st.cacheAt != st.table[t])
    ensures Inv(Fetched(st, st.table[t])) && Fetched(st, st.table[t]).cacheAt == st.table[t]
    ensures forall c: nat :: Count(Fetched(st, st.table[t]), c) == Count(st, c)
  {
    var st' := Fetched(st, st.table[t]);
    assert SameButCache(st, st');
    SearchCount(st, st');
  }

  /** Counting through block `at` of c's region changes no other count. */
  lemma BumpCount(st: Store, at: nat, c: nat)
    requires BlocksOK(st) && Covered(st, Region(st.b, c)) && st.table[Region(st.b, c)] == at
    ensures var st' := Bump(st, at, c);
      && SameTables(st, st') && st'.free == st.free && st'.cacheAt == st.cacheAt
      && (forall y: nat :: y != c ==> Count(st', y) == Count(st, y))
      && Count(st', c) == (if st' == st then Count(st, c) else st'.cache[c % st.b])
      && (st' == st || (|st'.cache| == |st.cache| && c % st.b < |st.cache| && st'.cache
        == st.cache[c % st.b := st.cache[c % st.b] + 1]))
      && (forall x: nat :: x in st.d && x != at ==> x in st'.d && st'.d[x] == st.d[x])
  {
    var st' := Bump(st, at, c);
    assert IsBlock(st, st.table[Region(st.b, c)]);
    if st' != st {
      forall y: nat ensures Count(st', y) == if y == c then st'.cache[c % st.b] else Count(st, y) {
        if Covered(st, Region(st.b, y)) {
          assert IsBlock(st, st.table[Region(st.b, y)]);
          if Region(st.b, y) == Region(st.b, c) && y % st.b == c % st.b {
            DivEqual(y, c, st.b);
          }
        }
      }
    }
  }

  lemma BumpLoose(st: Store, at: nat, c: nat)
    requires Loose(st) && Covered(st, Region(st.b, c)) && st.table[Region(st.b, c)] == at && st.cacheAt != 0
    ensures Loose(Bump(st, at, c))
    ensures Bump(st, at, c) == st ==> st.cache[c % st.b] >= MAX_COUNT
  {
    BumpCount(st, at, c);
    var st' := Bump(st, at, c);
    assert IsBlock(st, at);
    forall t | 0 <= t < |st'.table| && st'.table[t] != 0 ensures IsBlock(st', st'.table[t]) {
      assert IsBlock(st, st.table[t]);
    }
    SameMeta(st, st');
    assert st.d[st.tableAt] == RefTable(st.table) && at in st.table;
  }

  /** Through the cached block of c's region, when the cache is right, all stays right. */
  lemma BumpInv(st: Store, c: nat)
    requires Inv(st) && Covered(st, Region(st.b, c)) && st.cacheAt == st.table[Region(st.b, c)]
    ensures Inv(Bump(st, st.cacheAt, c))
  {
    CachedCount(st, c);
    if st.cache[c % st.b] < MAX_COUNT {
      SavedInv(st, c, st.cache[c % st.b] + 1);
    }
  }

  /** Blocks stay, c's region has one, new ones lie at the search position or beyond, and no other count changes there.
      */
  ghost predicate Filled(st: Store, st': Store, c: nat) {
    && st'.b == st.b && st'.e == st.e && st'.tableAt == st.tableAt && |st'.table| == |st.table|
    && (forall t :: 0 <= t < |st.table| && st.table[t] != 0 ==> st'.table[t] == st.table[t])
    && Covered(st', Region(st.b, c)) && st.free <= st'.free
    && (forall y: nat :: y < st.free && y != c ==> Count(st', y) == Count(st, y))
    && (forall y: nat :: y < st.free && IsMeta(st', y) ==> IsMeta(st, y))
  }

  /** If c has been counted once, the cache holds its block, or is ahead of the one it holds. */
  predicate Marked(st: Store, c: nat) {
    && st.cacheAt != 0 && |st.cache| == st.b && c % st.b < |BlockAt(st.d, st.cacheAt)|
    && (Count(st, c) == 1 && Covered(st, Region(st.b, c)) && st.cacheAt != st.table[Region(st.b, c)] ==>
          st.cache[c % st.b] > BlockAt(st.d, st.cacheAt)[c % st.b])
  }

  lemma NewBlockFilled(st: Store, t: nat, o: nat)
    requires Inv(st) && t < |st.table| && st.table[t] == 0 && o == NextBlock(st)
    ensures var st1 := NewBlock(st, t, o);
      && o != 0 && Inv(st1) && st1.cacheAt == o == st1.table[t] && st1.free == o + 1
      && Blanks(st1.table) + 1 == Blanks(st.table)
      && (forall y: nat :: Count(st1, y) == Count(st, y)) && !IsMeta(st, o)
      && (forall y: nat :: IsMeta(st1, y) ==> IsMeta(st, y) || y == o)
  {
    FreeIsNew(st);
    NewBlockInv(st, t, o);
    BlanksFilled(st.table, t, o);
  }

  lemma CachedBlock(st: Store)
    requires Loose(st) && st.cacheAt != 0
    ensures |BlockAt(st.d, st.cacheAt)| == st.b && |st.cache| == st.b
  {
    var t :| 0 <= t < |st.table| && st.table[t] == st.cacheAt;
    assert IsBlock(st, st.table[t]);
  }

  lemma TallyCovered(st: Store, c: nat)
    requires Stays(st, c) && Loose(st) && Covered(st, Region(st.b, c))
    requires (Inv(st) || st.cacheAt != st.table[Region(st.b, c)])
    ensures var st' := Tally(st, c);
      Inv(st') && Loose(st') && SameTables(st, st') && Filled(st, st', c) && Marked(st', c) && st'.free
        == st.free && st'.cacheAt == st.table[Region(st.b, c)]
  {
    var at := st.table[Region(st.b, c)];
    FetchedInv(st, Region(st.b, c));
    var s1 := Fetched(st, at);
    BumpCount(s1, at, c);
    BumpInv(s1, c);
    InvLoose(Bump(s1, at, c));
    CachedBlock(Bump(s1, at, c));
    SameMeta(st, Bump(s1, at, c));
  }

  lemma {:induction false} TallyKeeps(st: Store, c: nat)
    requires Stays(st, c) && Loose(st)
    requires if Covered(st, Region(st.b, c)) then Inv(st) || st.cacheAt != st.table[Region(st.b, c)] else c < st.free
    ensures var st' := Tally(st, c); Loose(st') && Filled(st, st', c) && Marked(st', c)
    decreases Blanks(st.table)
  {
    hide Inv, Count, IsMeta, Loose, BlocksOK, TableOK;
    var t := Region(st.b, c);
    if Covered(st, t) {
      TallyCovered(st, c);
    } else {
      var o := NextBlock(st);
      var st1 := NewBlock(st, t, o);
      NewBlockFilled(st, t, o);
      InvLoose(st1);
      TallyKeeps(st1, o);
      TallyMissing(st, c, Tally(st1, o));
    }
  }

  /** The last step for a cluster whose region had no block: its count is saved in the new one. */
  lemma TallyMissing(st: Store, c: nat, s2: Store)
    requires Inv(st) && Region(st.b, c) < |st.table| && st.table[Region(st.b, c)] == 0 && c < st.free
    requires Loose(s2) && Filled(NewBlock(st, Region(st.b, c), NextBlock(st)), s2, NextBlock(st))
    requires Marked(s2, NextBlock(st))
    ensures var st' := Bump(s2, NextBlock(st), c); Loose(st') && Filled(st, st', c) && Marked(st', c)
    ensures Count(s2, c) == 0 && s2.b == st.b && Covered(s2, Region(st.b, c))
    ensures s2.table[Region(st.b, c)] == NextBlock(st)
    ensures Covered(s2, Region(st.b, NextBlock(st))) && NextBlock(st) != 0
  {
    hide Inv, Count, IsMeta, Loose, Filled, NextBlock;
    MissingBefore(st, c, s2);
    LooseBlocks(s2);
    BumpLoose(s2, NextBlock(st), c);
    MissingMark(s2, NextBlock(st), c);
    MissingFilled(st, c, s2);
  }

  lemma MissingBefore(st: Store, c: nat, s2: Store)
    requires Inv(st) && Region(st.b, c) < |st.table| && st.table[Region(st.b, c)] == 0 && c < st.free
    requires Filled(NewBlock(st, Region(st.b, c), NextBlock(st)), s2, NextBlock(st))
    ensures Count(s2, c) == 0 && s2.b == st.b && Covered(s2, Region(st.b, c))
    ensures s2.table[Region(st.b, c)] == NextBlock(st)
    ensures Covered(s2, Region(st.b, NextBlock(st))) && NextBlock(st) != 0
  {
    hide Inv, Count, IsMeta, BlocksOK, TableOK, HeldOK, NextBlock;
    NewBlockFilled(st, Region(st.b, c), NextBlock(st));
    FreeIsNew(st);
    UncoveredFree(st, c);
    assert c < NextBlock(st);
  }

  lemma MissingFilled(st: Store, c: nat, s2: Store)
    requires Inv(st) && Region(st.b, c) < |st.table| && st.table[Region(st.b, c)] == 0 && c < st.free && BlocksOK(s2)
    requires Filled(NewBlock(st, Region(st.b, c), NextBlock(st)), s2, NextBlock(st))
    ensures Filled(st, Bump(s2, NextBlock(st), c), c)
  {
    hide Inv, Count, IsMeta, BlocksOK, NextBlock, Bump;
    var t, o := Region(st.b, c), NextBlock(st);
    MissingBefore(st, c, s2);
    NewBlockFilled(st, t, o);
    FreeIsNew(st);
    BumpCount(s2, o, c);
    SameMeta(s2, Bump(s2, o, c));
  }

  lemma LooseBlocks(st: Store)
    requires Loose(st)
    ensures BlocksOK(st)
  {
  }

  lemma MissingMark(s2: Store, o: nat, c: nat)
    requires Loose(s2) && Covered(s2, Region(s2.b, c)) && s2.table[Region(s2.b, c)] == o && s2.cacheAt != 0
    requires |s2.cache| == s2.b
    requires Count(s2, c) == 0
    ensures Marked(Bump(s2, o, c), c)
  {
    hide Count, HeldOK, TableOK, IsMeta;
    BumpCount(s2, o, c);
    CachedBlock(s2);
    BumpLoose(s2, o, c);
    CachedBlock(Bump(s2, o, c));
  }

  // ---------- A block that strays ----------

  /** A block made for c's region that lies in another one: either c or the block is counted wrong, or the cache is
      left ahead of the block it holds. */
  lemma AstrayFails(st: Store, c: nat)
    requires Inv(st) && Stays(st, c) && !Covered(st, Region(st.b, c)) && c < st.free
    requires Region(st.b, NextBlock(st)) != Region(st.b, c)
    ensures !(Inv(Tally(st, c)) && Evolves(st, Tally(st, c), c, 1))
  {
    hide Inv, Count, IsMeta, Loose, BlocksOK, TableOK, Evolves, Filled, Marked, NextBlock, Bump, Stays;
    var t, o := Region(st.b, c), NextBlock(st);
    StaysMissing(st, c);
    var st1 := NewBlock(st, t, o);
    NewBlockFilled(st, t, o);
    InvLoose(st1);
    TallyKeeps(st1, o);
    var s2 := Tally(st1, o);
    TallyMissing(st, c, s2);
    var st' := Bump(s2, o, c);
    if Inv(st') && Evolves(st, st', c, 1) {
      LooseBlocks(s2);
      EvolvesCounts(st, s2, c);
      StrayCache(s2, o, c);
    }
  }

  lemma StaysMissing(st: Store, c: nat)
    requires Stays(st, c) && !Covered(st, Region(st.b, c))
    ensures Region(st.b, c) < |st.table| && st.table[Region(st.b, c)] == 0 && Inv(st)
    ensures var st1 := NewBlock(st, Region(st.b, c), NextBlock(st));
      Stays(st1, NextBlock(st)) && Tally(st, c) == Bump(Tally(st1, NextBlock(st)), NextBlock(st), c)
  {
    FreeIsNew(st);
  }

  /** Had all gone well, both c and the block would be counted once. */
  lemma EvolvesCounts(st: Store, s2: Store, c: nat)
    requires Inv(st) && Region(st.b, c) < |st.table| && st.table[Region(st.b, c)] == 0 && c < st.free && BlocksOK(s2)
    requires Filled(NewBlock(st, Region(st.b, c), NextBlock(st)), s2, NextBlock(st))
    requires Evolves(st, Bump(s2, NextBlock(st), c), c, 1)
    ensures Count(Bump(s2, NextBlock(st), c), c) == 1 && Count(s2, NextBlock(st)) == 1
  {
    hide Inv, Count, BlocksOK, NextBlock, Bump, Filled, Evolves;
    var o := NextBlock(st);
    var st' := Bump(s2, o, c);
    MissingBefore(st, c, s2);
    MissingFilled(st, c, s2);
    NewBlockFilled(st, Region(st.b, c), o);
    FreeIsNew(st);
    UncoveredFree(st, c);
    BumpCount(s2, o, c);
    EvolvesAt(st, st', c, 1, c);
    EvolvesAt(st, st', c, 1, o);
    assert IsMeta(st', o);
    FilledMeta(st, st', c);
  }

  lemma FilledMeta(st: Store, st': Store, c: nat)
    requires Filled(st, st', c) && c < st.free
    ensures IsMeta(st', c) <==> IsMeta(st, c)
  {
    hide Count;
    if IsMeta(st, c) && !InRun(st.tableAt, TableClusters(st), c) {
      var u :| 0 <= u < |st.table| && st.table[u] == c;
      assert st'.table[u] == c;
    }
  }

  lemma StrayCache(s2: Store, o: nat, c: nat)
    requires Loose(s2) && Marked(s2, o) && Region(s2.b, o) != Region(s2.b, c) && Count(s2, o) == 1 && o != 0
    requires Covered(s2, Region(s2.b, c)) && s2.table[Region(s2.b, c)] == o && Covered(s2, Region(s2.b, o))
    requires Count(s2, c) == 0
    ensures !(Inv(Bump(s2, o, c)) && Count(Bump(s2, o, c), c) == 1)
  {
    hide Count, HeldOK, TableOK, IsMeta;
    var st' := Bump(s2, o, c);
    BumpCount(s2, o, c);
    CachedBlock(s2);
    assert s2.table[Region(s2.b, o)] != o;
    if Count(st', c) == 1 {
      assert s2.cache[c % s2.b] == 0;
      if s2.cacheAt == o {
        assert s2.cache[o % s2.b] > BlockAt(s2.d, o)[o % s2.b];
        assert st'.cache[o % s2.b] != BlockAt(st'.d, o)[o % s2.b];
      } else {
        assert BlockAt(st'.d, s2.cacheAt) == BlockAt(s2.d, s2.cacheAt);
        assert st'.cache[c % s2.b] != BlockAt(st'.d, st'.cacheAt)[c % s2.b];
      }
    }
  }

  // ---------- When all goes well ----------

  lemma TallyRecounts(st: Store, c: nat)
    requires Stays(st, c) && Loose(st) && Covered(st, Region(st.b, c))
    requires (Inv(st) || st.cacheAt != st.table[Region(st.b, c)])
    requires Count(st, c) < MAX_COUNT
    ensures Recounted(st, Tally(st, c), c, Count(st, c) + 1)
  {
    hide Inv, Count, Recounted, IsMeta, Loose, Settled;
    var at := st.table[Region(st.b, c)];
    FetchedInv(st, Region(st.b, c));
    var s1 := Fetched(st, at);
    assert Count(s1, c) == Count(st, c);
    SaveRecounts(s1, c, Count(st, c) + 1);
    assert Saved(s1, at, c, Count(st, c) + 1).free == s1.free;
    RecountedCache(st, s1, Tally(st, c), c, Count(st, c) + 1);
  }

  /** The block made for c's region lies in it. */
  lemma TallySelf(st: Store, c: nat)
    requires Stays(st, c) && Inv(st) && !Covered(st, Region(st.b, c)) && Region(st.b, NextBlock(st)) == Region(st.b, c)
    requires c != NextBlock(st)
    ensures var st' := Tally(st, c);
      && Inv(st') && Evolves(st, st', c, 1) && Settles(st, st', c)
      && st'.cacheAt == NextBlock(st) == st'.table[Region(st.b, c)]
      && st'.table == st.table[Region(st.b, c) := NextBlock(st)] && st'.free == NextBlock(st) + 1
  {
    hide Inv, Count, Recounted, IsMeta, Loose, Settled, Evolves, Settles, Stays, NextBlock;
    var t, o := Region(st.b, c), NextBlock(st);
    StaysMissing(st, c);
    FreeIsNew(st);
    NewBlockFilled(st, t, o);
    var st1 := NewBlock(st, t, o);
    InvLoose(st1);
    TallyRecounts(st1, o);
    var s2 := Tally(st1, o);
    SelfCovered(st, s2, t, o, c);
    CachedCount(s2, c);
    SaveRecounts(s2, c, Count(s2, c) + 1);
    assert Saved(s2, o, c, Count(s2, c) + 1).free == s2.free;
    EvolvesLast(st, s2, Tally(st, c), c);
    SelfCoveredSettles(st, s2, Tally(st, c), t, o, c);
  }

  /** A new block that has been counted, wherever its own block is. */
  lemma NewBlockThen(st: Store, s2: Store, t: nat, o: nat)
    requires Inv(st) && t < |st.table| && st.table[t] == 0 && o == NextBlock(st)
    requires Evolves(NewBlock(st, t, o), s2, o, 1)
    ensures Evolves(st, s2, 0, 0)
  {
    hide Inv, Count, Evolves, NextBlock;
    var st1 := NewBlock(st, t, o);
    NewBlockFilled(st, t, o);
    FreeIsNew(st);
    assert IsMeta(st1, o);
    forall x: nat
      ensures Count(s2, x) + B(IsMeta(st, x)) == Count(st, x) + B(IsMeta(s2, x)) + B(InRun(0, 0, x))
      ensures IsMeta(s2, x) ==> IsMeta(st, x) || Count(st, x) == 0
      ensures x in st.d && Count(st, x) > 0 && !IsMeta(st, x) ==> x in s2.d && s2.d[x] == st.d[x]
    {
      NewBlockMeta(st, t, o, x);
      EvolvesMore(st1, s2, o, 1, x);
    }
    EvolvesSizes(st1, s2, o, 1);
    EvolvesMake(st, s2);
  }

  lemma NewBlockMeta(st: Store, t: nat, o: nat, x: nat)
    requires Inv(st) && t < |st.table| && st.table[t] == 0 && o != 0 && !IsMeta(st, o)
    ensures IsMeta(NewBlock(st, t, o), x) <==> IsMeta(st, x) || x == o
    ensures x in st.d && !IsMeta(st, x) && x != o ==> x in NewBlock(st, t, o).d && NewBlock(st, t, o).d[x] == st.d[x]
  {
    if IsMeta(st, x) {
      MetaStays(st, t, o, x);
    }
    assert NewBlock(st, t, o).table[t] == o;
  }

  lemma EvolvesMore(st: Store, st': Store, at: nat, n: nat, x: nat)
    requires Evolves(st, st', at, n)
    ensures Count(st', x) + B(IsMeta(st, x)) == Count(st, x) + B(IsMeta(st', x)) + B(InRun(at, n, x))
    ensures IsMeta(st', x) ==> IsMeta(st, x) || Count(st, x) == 0
    ensures x in st.d && Count(st, x) > 0 && !IsMeta(st, x) ==> x in st'.d && st'.d[x] == st.d[x]
  {
  }

  lemma EvolvesSizes(st: Store, st': Store, at: nat, n: nat)
    requires Evolves(st, st', at, n)
    ensures st'.b == st.b && st'.e == st.e
  {
  }

  lemma EvolvesMake(st: Store, st': Store)
    requires st'.b == st.b && st'.e == st.e
    requires forall x: nat :: Count(st', x) + B(IsMeta(st, x)) == Count(st, x) + B(IsMeta(st', x)) + B(InRun(0, 0, x))
    requires forall x: nat :: IsMeta(st', x) ==> IsMeta(st, x) || Count(st, x) == 0
    requires forall x: nat :: x in st.d && Count(st, x) > 0 && !IsMeta(st, x) ==> x in st'.d && st'.d[x] == st.d[x]
    ensures Evolves(st, st', 0, 0)
  {
  }

  // ---------- A search position past all that is in use ----------

  ghost predicate Clear(st: Store) { forall x: nat :: st.free <= x ==> Count(st, x) == 0 }

  /** The table covers the search position and as many clusters more as regions lack a block. */
  predicate Roomy(st: Store) { st.free + Blanks(st.table) <= |st.table| * st.b }

  lemma ClearNext(st: Store)
    requires Clear(st)
    ensures NextBlock(st) == st.free
  {
  }

  lemma RoomyRegion(st: Store)
    requires Roomy(st) && Blanks(st.table) > 0
    ensures Region(st.b, st.free) < |st.table|
  {
    if Region(st.b, st.free) >= |st.table| {
      MulMono(|st.table|, Region(st.b, st.free), st.b);
      RegionSpan(st.b, st.free);
    }
  }

  /** The cache ends on the block of a region no earlier than that of the search position. */
  ghost predicate CacheLater(st: Store, st': Store, c: nat) {
    exists r :: Region(st.b, c) <= r < |st'.table| && st'.table[r] == st'.cacheAt
      && (!Covered(st, Region(st.b, c)) ==> Region(st.b, st.free) <= r)
  }

  lemma LaterBy(st: Store, st': Store, c: nat, r: nat)
    requires Region(st.b, c) <= r < |st'.table| && st'.table[r] == st'.cacheAt
    requires !Covered(st, Region(st.b, c)) ==> Region(st.b, st.free) <= r
    ensures CacheLater(st, st', c)
  {
  }

  lemma {:induction false} ClearStays(st: Store, c: nat)
    requires Inv(st) && Clear(st) && Roomy(st) && c < st.free && Region(st.b, c) < |st.table|
    ensures Stays(st, c)
    ensures var st' := Tally(st, c);
      Loose(st') && Filled(st, st', c) && Clear(st') && Roomy(st') && CacheLater(st, st', c)
    decreases Blanks(st.table)
  {
    hide Inv, Count, IsMeta, Loose, Filled, NextBlock, Bump, Clear, Roomy, CacheLater, NewBlock, Stays, Tally;
    var t := Region(st.b, c);
    InvLoose(st);
    if Covered(st, t) {
      CoveredStays(st, c);
      TallyKeeps(st, c);
      CoveredClear(st, c);
    } else {
      ClearNew(st, t);
      RegionMono(st.b, c, st.free);
      var st1 := NewBlock(st, t, st.free);
      ClearStays(st1, st.free);
      MissingStays(st, c);
      TallyKeeps(st, c);
      MissingClear(st, c);
    }
  }

  lemma CoveredStays(st: Store, c: nat)
    requires Loose(st) && Covered(st, Region(st.b, c))
    ensures Stays(st, c)
  {
    assert IsBlock(st, st.table[Region(st.b, c)]);
  }

  lemma CoveredClear(st: Store, c: nat)
    requires Stays(st, c) && Loose(st) && Clear(st) && Roomy(st) && c < st.free && Covered(st, Region(st.b, c))
    requires Inv(st) || st.cacheAt != st.table[Region(st.b, c)]
    ensures var st' := Tally(st, c); Clear(st') && Roomy(st') && CacheLater(st, st', c)
  {
    hide Inv, Count, IsMeta, NextBlock, Bump, Filled, Marked, Roomy, Stays;
    TallyCovered(st, c);
    TallyCoveredCounts(st, c);
    var st' := Tally(st, c);
    assert st'.table == st.table;
    SameRoom(st, st');
    LaterBy(st, st', c, Region(st.b, c));
  }

  lemma SameRoom(st: Store, st': Store)
    requires Roomy(st) && st'.table == st.table && st'.b == st.b && st'.free == st.free
    ensures Roomy(st')
  {
  }

  lemma TallyCoveredCounts(st: Store, c: nat)
    requires Stays(st, c) && Loose(st) && Covered(st, Region(st.b, c))
    requires (Inv(st) || st.cacheAt != st.table[Region(st.b, c)])
    ensures forall y: nat :: y != c ==> Count(Tally(st, c), y) == Count(st, y)
  {
    hide Count, IsMeta, Bump, Filled;
    FetchedInv(st, Region(st.b, c));
    BumpCount(Fetched(st, st.table[Region(st.b, c)]), st.table[Region(st.b, c)], c);
  }

  /** The block made next lies at the search position, inside the table's reach. */
  lemma ClearNew(st: Store, t: nat)
    requires Inv(st) && Clear(st) && Roomy(st) && t < |st.table| && st.table[t] == 0
    ensures NextBlock(st) == st.free && Region(st.b, st.free) < |st.table|
    ensures var st1 := NewBlock(st, t, st.free);
      && Inv(st1) && Clear(st1) && Roomy(st1) && st1.free == st.free + 1 && Blanks(st1.table) + 1 == Blanks(st.table)
      && st1.b == st.b && |st1.table| == |st.table|
  {
    hide Inv, Count, IsMeta;
    ClearNext(st);
    NewBlockFilled(st, t, st.free);
    RoomyRegion(st);
  }

  lemma MissingStays(st: Store, c: nat)
    requires Inv(st) && NextBlock(st) == st.free && Region(st.b, c) < |st.table| && st.table[Region(st.b, c)] == 0
    requires Stays(NewBlock(st, Region(st.b, c), st.free), st.free)
    ensures Stays(st, c)
  {
    FreeIsNew(st);
  }

  lemma MissingClear(st: Store, c: nat)
    requires Inv(st) && NextBlock(st) == st.free && Region(st.b, c) < |st.table| && st.table[Region(st.b, c)] == 0
    requires c < st.free
    requires Stays(st, c) && Stays(NewBlock(st, Region(st.b, c), st.free), st.free)
    requires NewBlock(st, Region(st.b, c), st.free).free == st.free + 1
    requires var st1 := NewBlock(st, Region(st.b, c), st.free); var s2 := Tally(st1, st.free);
      && Loose(s2) && Filled(st1, s2, st.free) && Clear(s2) && Roomy(s2) && CacheLater(st1, s2, st.free)
    ensures var st' := Tally(st, c); Clear(st') && Roomy(st') && CacheLater(st, st', c)
  {
    hide Inv, Count, IsMeta, NextBlock, Bump, Marked, Roomy, Stays, Filled, Loose;
    var t, o := Region(st.b, c), st.free;
    StaysMissing(st, c);
    var st1 := NewBlock(st, t, o);
    var s2 := Tally(st1, o);
    MissingBefore(st, c, s2);
    LooseBlocks(s2);
    BumpCount(s2, o, c);
    var st' := Bump(s2, o, c);
    SameRoom(s2, st');
    FilledFree(st1, s2, o);
    RegionMono(st.b, c, o);
    var r :| Region(st.b, o) <= r < |s2.table| && s2.table[r] == s2.cacheAt;
    LaterBy(st, st', c, r);
  }

  lemma FilledFree(st: Store, st': Store, c: nat)
    requires Filled(st, st', c)
    ensures st.free <= st'.free && st'.b == st.b
  {
  }

  // ---------- Counting one cluster ----------

  lemma {:induction false} TallyBlanks(st: Store, c: nat)
    requires Stays(st, c)
    ensures Blanks(Tally(st, c).table) <= Blanks(st.table) && |Tally(st, c).table| == |st.table|
    ensures Tally(st, c).b == st.b
    decreases Blanks(st.table)
  {
    hide Inv, NextBlock, Count;
    if !Covered(st, Region(st.b, c)) {
      StaysMissing(st, c);
      NewBlockFilled(st, Region(st.b, c), NextBlock(st));
      TallyBlanks(NewBlock(st, Region(st.b, c), NextBlock(st)), NextBlock(st));
    }
  }

  /** A cluster that can be counted, and for which the table need not grow. */
  lemma CountableStays(st: Store, c: nat)
    requires Inv(st) && Countable(st, c) && Region(st.b, c) < |st.table|
    ensures Stays(st, c)
  {
    hide Count, NextBlock;
    InvLoose(st);
    if Covered(st, Region(st.b, c)) {
      CoveredStays(st, c);
    } else {
      var o := NextBlock(st);
      FreeIsNew(st);
      NewBlockFilled(st, Region(st.b, c), o);
      InvLoose(NewBlock(st, Region(st.b, c), o));
      CoveredStays(NewBlock(st, Region(st.b, c), o), o);
    }
  }

  /** Counting c goes well exactly when its region has a block or gets one that lies in it. */
  lemma TallyCounted(st: Store, c: nat)
    requires Inv(st) && Stays(st, c) && Count(st, c) < MAX_COUNT && (Covered(st, Region(st.b, c)) || c < st.free)
    ensures Counted(st, Tally(st, c), c)
  {
    hide Inv, Count, NextBlock, Recounted, Evolves, Settles, Stays, Tally, Loose;
    InvLoose(st);
    if Covered(st, Region(st.b, c)) {
      TallyRecounts(st, c);
      RecountedEvolves(st, Tally(st, c), c);
      RecountedSettles(st, Tally(st, c), c);
    } else {
      StaysMissing(st, c);
      FreeIsNew(st);
      if Region(st.b, NextBlock(st)) == Region(st.b, c) {
        TallySelf(st, c);
      } else {
        AstrayFails(st, c);
      }
    }
  }
}

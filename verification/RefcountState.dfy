/**
 The refcount table, the refcount blocks and the one-block cache as a value, the counts they stand
 for, and what each single write does to those counts.
 */
module RefcountState {
  import opened Arith
  import opened Qcow2Format
  import opened Qcow2Grow

  /** b counts fit in a block, e block addresses in a cluster of the table. Block address 0 means none;
      cacheAt 0 means nothing is cached. */
  datatype Store = Store(b: Pos, e: Pos, d: Disk, tableAt: nat,
    table: seq<nat>, cacheAt: nat, cache: seq<nat>, free: nat)

  function BlockAt(d: Disk, x: nat): seq<nat> {
    if x in d && d[x].RefBlock? then d[x].counts else []
  }

  /** One block holds the counts of the b clusters of a region. */
  function Region(b: Pos, c: nat): nat { c / b }

  /** The first cluster past the region of c. */
  function RegionEnd(b: Pos, c: nat): nat { (Region(b, c) + 1) * b }

  lemma RegionMono(b: Pos, x: nat, y: nat)
    requires x <= y
    ensures Region(b, x) <= Region(b, y) && RegionEnd(b, x) <= RegionEnd(b, y)
  {
    DivMono(x, y, b);
    MulMono(Region(b, x) + 1, Region(b, y) + 1, b);
  }

  lemma InRegion(b: Pos, x: nat, u: nat)
    requires u * b <= x < u * b + b
    ensures Region(b, x) == u
  {
    DivUnique(x, b, u, x - u * b);
  }

  lemma RegionSpan(b: Pos, x: nat)
    ensures Region(b, x) * b <= x < RegionEnd(b, x)
  {
  }

  /** Has region t, the clusters t * b to t * b + b - 1, a refcount block? */
  predicate Covered(st: Store, t: nat) { t < |st.table| && st.table[t] != 0 }

  /** The count the tables on disk give cluster c. */
  function Count(st: Store, c: nat): nat {
    var t := Region(st.b, c);
    if Covered(st, t) && c % st.b < |BlockAt(st.d, st.table[t])| then BlockAt(st.d, st.table[t])[c % st.b] else 0
  }

  function TableClusters(st: Store): nat { |st.table| / st.e }

  predicate IsMeta(st: Store, x: nat) {
    InRun(st.tableAt, TableClusters(st), x) || (x != 0 && x in st.table)
  }

  predicate IsBlock(st: Store, x: nat) {
    && x in st.d && st.d[x].RefBlock? && |st.d[x].counts| == st.b
    && forall i :: 0 <= i < |st.d[x].counts| ==> st.d[x].counts[i] <= MAX_COUNT
  }

  predicate BlocksOK(st: Store) {
    && (forall t :: 0 <= t < |st.table| && st.table[t] != 0 ==> IsBlock(st, st.table[t]))
    && (forall t, u :: 0 <= t < u < |st.table| && st.table[t] != 0 ==> st.table[t] != st.table[u])
  }

  predicate TableOK(st: Store) {
    && TableClusters(st) > 0 && st.tableAt > 0 && st.tableAt in st.d && st.d[st.tableAt] == RefTable(st.table)
    && forall k :: st.tableAt < k < st.tableAt + TableClusters(st) ==> k in st.d && st.d[k] == RefTail(st.tableAt)
  }

  /** The cached block is what the disk holds. */
  predicate CacheOK(st: Store) {
    st.cacheAt != 0 ==> st.cacheAt in st.table && BlockAt(st.d, st.cacheAt) == st.cache
  }

  /** Cluster 0 and the metadata are counted, or about to be and out of the allocator's reach. */
  ghost predicate HeldOK(st: Store) {
    && (Count(st, 0) > 0 || st.free > 0)
    && forall x: nat :: IsMeta(st, x) ==> Count(st, x) > 0 || x < st.free
  }

  ghost predicate Inv(st: Store) { BlocksOK(st) && TableOK(st) && CacheOK(st) && HeldOK(st) }

  // ---------- Loading a block ----------

  function Loaded(st: Store, x: nat): Store { st.(cacheAt := x, cache := BlockAt(st.d, x)) }

  lemma LoadedInv(st: Store, t: nat)
    requires Inv(st) && Covered(st, t)
    ensures Inv(Loaded(st, st.table[t])) && forall c: nat :: Count(Loaded(st, st.table[t]), c) == Count(st, c)
  {
    var st' := Loaded(st, st.table[t]);
    assert forall c: nat :: Count(st', c) == Count(st, c);
  }

  // ---------- Changing one count ----------

  /** The count of c becomes n in the cache, and in the block at `at`, whichever that is. */
  function Saved(st: Store, at: nat, c: nat, n: nat): Store
    requires c % st.b < |st.cache| && c % st.b < |BlockAt(st.d, at)|
  {
    st.(d := st.d[at := RefBlock(BlockAt(st.d, at)[c % st.b := n])], cache := st.cache[c % st.b := n])
  }

  lemma SavedCount(st: Store, c: nat, n: nat)
    requires BlocksOK(st) && CacheOK(st) && Covered(st, Region(st.b, c)) && st.cacheAt == st.table[Region(st.b, c)]
    ensures c % st.b < |st.cache| && c % st.b < |BlockAt(st.d, st.cacheAt)|
    ensures forall y: nat :: Count(Saved(st, st.cacheAt, c, n), y) == if y == c then n else Count(st, y)
  {
    assert IsBlock(st, st.table[Region(st.b, c)]);
    var st' := Saved(st, st.cacheAt, c, n);
    forall y: nat ensures Count(st', y) == if y == c then n else Count(st, y) {
      if Covered(st, Region(st.b, y)) {
        assert IsBlock(st, st.table[Region(st.b, y)]);
        if Region(st.b, y) == Region(st.b, c) && y % st.b == c % st.b {
          DivEqual(y, c, st.b);
        }
      }
    }
  }

  /** Saving through the block that is cached keeps everything in order. */
  lemma SavedInv(st: Store, c: nat, n: nat)
    requires Inv(st) && Covered(st, Region(st.b, c)) && st.cacheAt == st.table[Region(st.b, c)] && n <= MAX_COUNT
    requires n > 0 || (!IsMeta(st, c) && c != 0)
    ensures c % st.b < |st.cache| && c % st.b < |BlockAt(st.d, st.cacheAt)| && Inv(Saved(st, st.cacheAt, c, n))
  {
    SavedCount(st, c, n);
    var st' := Saved(st, st.cacheAt, c, n);
    assert IsBlock(st, st.cacheAt);
    forall t | 0 <= t < |st.table| && st.table[t] != 0 ensures IsBlock(st', st.table[t]) {
      assert IsBlock(st, st.table[t]);
    }
  }

  // ---------- A new block ----------

  function Zeros(n: nat): (r: seq<nat>)
    ensures |r| == n && forall i :: 0 <= i < n ==> r[i] == 0
  {
    seq(n, _ => 0)
  }

  /** Region t gets the empty block o. */
  function NewBlock(st: Store, t: nat, o: nat): Store
    requires t < |st.table|
  {
    var table := st.table[t := o];
    st.(d := st.d[o := RefBlock(Zeros(st.b))][st.tableAt := RefTable(table)],
      table := table, cacheAt := o, cache := Zeros(st.b), free := o + 1)
  }

  lemma NewBlockCount(st: Store, t: nat, o: nat)
    requires BlocksOK(st) && TableOK(st) && t < |st.table| && st.table[t] == 0 && o != 0 && !IsMeta(st, o)
    ensures forall y: nat :: Count(NewBlock(st, t, o), y) == Count(st, y)
  {
    var st' := NewBlock(st, t, o);
    forall y: nat ensures Count(st', y) == Count(st, y) {
      var u := Region(st.b, y);
      if Covered(st, u) {
        assert IsBlock(st, st.table[u]);
      }
    }
  }

  lemma NewBlockInv(st: Store, t: nat, o: nat)
    requires Inv(st) && t < |st.table| && st.table[t] == 0 && o != 0 && Count(st, o) == 0 && o >= st.free
    ensures Inv(NewBlock(st, t, o)) && !IsMeta(st, o)
    ensures forall y: nat :: Count(NewBlock(st, t, o), y) == Count(st, y)
  {
    var st' := NewBlock(st, t, o);
    NewBlockCount(st, t, o);
    forall u | 0 <= u < |st'.table| && st'.table[u] != 0 ensures IsBlock(st', st'.table[u]) {
      if u != t {
        assert IsBlock(st, st.table[u]);
      }
    }
    assert forall x: nat :: IsMeta(st', x) ==> IsMeta(st, x) || x == o;
    assert st'.table[t] == o;
  }

  // ---------- Free clusters ----------

  lemma CountBelow(st: Store, c: nat)
    requires Count(st, c) > 0
    ensures c < |st.table| * st.b
  {
    MulMono(Region(st.b, c) + 1, |st.table|, st.b);
  }

  /** The first cluster from i on that is not counted. */
  ghost function FirstFree(st: Store, i: nat): (r: nat)
    ensures i <= r && Count(st, r) == 0 && forall x: nat :: i <= x < r ==> Count(st, x) > 0
    decreases |st.table| * st.b - i
  {
    if Count(st, i) == 0 then i else CountBelow(st, i); FirstFree(st, i + 1)
  }

  predicate AllFree(st: Store, at: nat, n: nat) { forall x :: at <= x < at + n ==> Count(st, x) == 0 }

  /** No run of n free clusters starts at s. */
  ghost predicate Blocked(st: Store, s: nat, n: nat) { exists x: nat :: InRun(s, n, x) && Count(st, x) > 0 }

  ghost predicate FirstFit(st: Store, from: nat, at: nat, n: nat) {
    from <= at && AllFree(st, at, n) && forall s: nat :: from <= s < at ==> Blocked(st, s, n)
  }

  predicate SameButCache(st: Store, st': Store) { st' == st.(cacheAt := st'.cacheAt, cache := st'.cache) }

  predicate SameButSearch(st: Store, st': Store) {
    st' == st.(cacheAt := st'.cacheAt, cache := st'.cache, free := st'.free)
  }

  /** Moving the search position forward changes no count. */
  lemma SearchInv(st: Store, free: nat)
    requires Inv(st) && st.free <= free
    ensures Inv(st.(free := free)) && forall c: nat :: Count(st.(free := free), c) == Count(st, c)
  {
    assert forall c: nat :: Count(st.(free := free), c) == Count(st, c);
  }

  lemma BlockedBy(st: Store, start: nat, i: nat, n: nat)
    requires i < n && Count(st, start + i) > 0
    ensures forall s: nat :: start <= s <= start + i ==> Blocked(st, s, n)
  {
    forall s: nat | start <= s <= start + i ensures Blocked(st, s, n) {
      assert InRun(s, n, start + i);
    }
  }

  lemma SearchCount(st: Store, st': Store)
    requires SameButSearch(st, st')
    ensures forall c: nat :: Count(st', c) == Count(st, c)
  {
  }
}

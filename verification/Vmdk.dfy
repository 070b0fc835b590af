/** VMDK: grains copied on first write from the nearest ancestor that holds them. */
module Vmdk {
  import opened Arith
  import opened Qcow2Format

  /** One image of the chain: its grain directory and tables, their backup, and the grains of its file, at positions
      1 .. len - 1. Position 0 means the grain is missing, and an empty table that the directory has none. */
  datatype Layer = Layer(tables: seq<seq<nat>>, backup: seq<seq<nat>>, file: map<nat, seq<Sector>>, len: nat)

  /** cs sectors to a grain and n2 grains to a table, the same all along the chain. */
  datatype Chain = Chain(cs: Pos, n2: Pos, active: Layer, parents: seq<Layer>)

  function DirIndex(ch: Chain, k: nat): nat { k / (ch.cs * ch.n2) }
  function TabIndex(ch: Chain, k: nat): nat { (k / ch.cs) % ch.n2 }

  predicate HasTable(l: Layer, i: nat) { i < |l.tables| && l.tables[i] != [] }

  function GrainAt(l: Layer, i: nat, j: nat): nat {
    if i < |l.tables| && j < |l.tables[i]| then l.tables[i][j] else 0
  }

  function Grain(l: Layer, p: nat): seq<Sector> { if p in l.file then l.file[p] else [] }

  function SectorOf(grain: seq<Sector>, x: nat): Sector { if x < |grain| then grain[x] else ZeroSector() }

  // ---------- The two lookups through the parents ----------

  /** What reading finds: the grain of the nearest ancestor that holds it, else none. */
  function Inherited(parents: seq<Layer>, i: nat, j: nat): seq<Sector> {
    if parents == [] then []
    else if GrainAt(parents[0], i, j) != 0 then Grain(parents[0], GrainAt(parents[0], i, j))
    else Inherited(parents[1..], i, j)
  }

  /** What a first write copies: the same, except that an ancestor without a table for the grain ends the search. */
  function Copied(parents: seq<Layer>, i: nat, j: nat): seq<Sector> {
    if parents == [] || !HasTable(parents[0], i) then []
    else if GrainAt(parents[0], i, j) != 0 then Grain(parents[0], GrainAt(parents[0], i, j))
    else Copied(parents[1..], i, j)
  }

  /** An ancestor without a table comes before any that holds the grain. */
  predicate Cut(parents: seq<Layer>, i: nat, j: nat) {
    parents != [] && (!HasTable(parents[0], i) || (GrainAt(parents[0], i, j) == 0 && Cut(parents[1..], i, j)))
  }

  lemma {:induction false} CopiedUnlessCut(parents: seq<Layer>, i: nat, j: nat)
    ensures Copied(parents, i, j) == if Cut(parents, i, j) then [] else Inherited(parents, i, j)
  {
    if parents != [] {
      CopiedUnlessCut(parents[1..], i, j);
    }
  }

  /** Guest sector x of grain (i, j). */
  function GrainView(ch: Chain, i: nat, j: nat, x: nat): Sector {
    var p := GrainAt(ch.active, i, j);
    SectorOf(if p != 0 then Grain(ch.active, p) else Inherited(ch.parents, i, j), x)
  }

  function View(ch: Chain, k: nat): Sector { GrainView(ch, DirIndex(ch, k), TabIndex(ch, k), k % ch.cs) }

  predicate Missing(ch: Chain, k: nat) { GrainAt(ch.active, DirIndex(ch, k), TabIndex(ch, k)) == 0 }

  function CopiedSector(ch: Chain, k: nat): Sector {
    SectorOf(Copied(ch.parents, DirIndex(ch, k), TabIndex(ch, k)), k % ch.cs)
  }

  /** Does a write of n sectors from k on touch the grain of sector y? */
  predicate Touched(cs: Pos, k: nat, n: nat, y: nat) { n > 0 && k / cs <= y / cs <= (k + n - 1) / cs }

  // ---------- Masks ----------

  predicate PowerOfTwo(n: nat) { n == 1 || (n > 1 && n % 2 == 0 && PowerOfTwo(n / 2)) }

  function BitAnd(a: nat, b: nat): nat {
    if a == 0 || b == 0 then 0 else 2 * BitAnd(a / 2, b / 2) + (if a % 2 == 1 && b % 2 == 1 then 1 else 0)
  }

  lemma {:induction false} MaskIsMod(k: nat, n: nat)
    requires PowerOfTwo(n)
    ensures BitAnd(k, n - 1) == k % n
  {
    if n > 1 {
      MaskIsMod(k / 2, n / 2);
      MaskStep(k, n / 2);
    }
  }

  lemma MaskStep(k: nat, h: nat)
    requires h > 0 && BitAnd(k / 2, h - 1) == k / 2 % h
    ensures BitAnd(k, 2 * h - 1) == k % (2 * h)
  {
    assert (2 * h - 1) / 2 == h - 1 && (2 * h - 1) % 2 == 1;
    HalfMod(k, h);
  }

  /** A remainder from that of the half. */
  lemma HalfMod(k: nat, h: nat)
    requires h > 0
    ensures k % (2 * h) == 2 * (k / 2 % h) + k % 2
  {
    var m := k / 2;
    assert m == m / h * h + m % h && k == 2 * m + k % 2;
    assert 2 * (m / h * h) == m / h * (2 * h);
    DivUnique(k, 2 * h, m / h, 2 * (m % h) + k % 2);
  }

  // ---------- What holds between operations ----------

  predicate TablesOK(ch: Chain) {
    && ch.active.backup == ch.active.tables && ch.active.len > 0
    && forall i :: 0 <= i < |ch.active.tables| ==> ch.active.tables[i] == [] || |ch.active.tables[i]| == ch.n2
  }

  /** Every entry names a whole grain of the file. */
  ghost predicate GrainsOK(ch: Chain) {
    forall i: nat, j: nat :: GrainAt(ch.active, i, j) != 0 ==>
      GrainAt(ch.active, i, j) < ch.active.len && |Grain(ch.active, GrainAt(ch.active, i, j))| == ch.cs
  }

  /** No two entries name the same grain. */
  ghost predicate Distinct(l: Layer) {
    forall i: nat, j: nat, i': nat, j': nat ::
      GrainAt(l, i, j) != 0 && GrainAt(l, i, j) == GrainAt(l, i', j') ==> i == i' && j == j'
  }

  ghost predicate Valid(ch: Chain) { TablesOK(ch) && GrainsOK(ch) && Distinct(ch.active) && PowerOfTwo(ch.cs) }

  // ---------- Changing one grain ----------

  /** Grain (i, j), not missing, becomes g. */
  function Rewritten(ch: Chain, i: nat, j: nat, g: seq<Sector>): Chain {
    ch.(active := ch.active.(file := ch.active.file[GrainAt(ch.active, i, j) := g]))
  }

  function SetEntry(tables: seq<seq<nat>>, i: nat, j: nat, p: nat): seq<seq<nat>>
    requires i < |tables| && j < |tables[i]|
  {
    var row: seq<nat> := tables[i][j := p];
    tables[i := row]
  }

  /** Grain (i, j), missing so far, is g, at the end of the file; both tables say so. */
  function Appended(ch: Chain, i: nat, j: nat, g: seq<Sector>): Chain
    requires TablesOK(ch) && HasTable(ch.active, i) && j < ch.n2
  {
    var l := ch.active;
    var tables, backup := SetEntry(l.tables, i, j, l.len), SetEntry(l.backup, i, j, l.len);
    ch.(active := Layer(tables, backup, l.file[l.len := g], l.len + 1))
  }

  ghost predicate SameFrame(ch: Chain, ch': Chain) {
    && ch'.cs == ch.cs && ch'.n2 == ch.n2 && ch'.parents == ch.parents
    && forall i: nat :: HasTable(ch'.active, i) <==> HasTable(ch.active, i)
  }

  /** Grain (i, j) is there and reads as g, every other is as before. */
  ghost predicate GrainSet(ch: Chain, ch': Chain, i: nat, j: nat, g: seq<Sector>) {
    && SameFrame(ch, ch')
    && (forall u: nat, v: nat, x: nat ::
          GrainView(ch', u, v, x) == if u == i && v == j then SectorOf(g, x) else GrainView(ch, u, v, x))
    && (forall u: nat, v: nat ::
          GrainAt(ch'.active, u, v) == 0 <==> GrainAt(ch.active, u, v) == 0 && !(u == i && v == j))
  }

  lemma RewrittenSets(ch: Chain, i: nat, j: nat, g: seq<Sector>)
    requires Valid(ch) && GrainAt(ch.active, i, j) != 0 && |g| == ch.cs
    ensures Valid(Rewritten(ch, i, j, g)) && GrainSet(ch, Rewritten(ch, i, j, g), i, j, g)
  {
    hide SectorOf, Inherited;
    var ch' := Rewritten(ch, i, j, g);
    assert forall u: nat, v: nat :: GrainAt(ch'.active, u, v) == GrainAt(ch.active, u, v);
  }

  lemma AppendedAt(ch: Chain, i: nat, j: nat, g: seq<Sector>)
    requires TablesOK(ch) && HasTable(ch.active, i) && j < ch.n2
    ensures SameFrame(ch, Appended(ch, i, j, g)) && TablesOK(Appended(ch, i, j, g))
    ensures forall u: nat, v: nat ::
      GrainAt(Appended(ch, i, j, g).active, u, v)
      == if u == i && v == j then ch.active.len else GrainAt(ch.active, u, v)
  {
  }

  lemma AppendedSets(ch: Chain, i: nat, j: nat, g: seq<Sector>)
    requires Valid(ch) && HasTable(ch.active, i) && j < ch.n2 && |g| == ch.cs
    ensures Valid(Appended(ch, i, j, g)) && GrainSet(ch, Appended(ch, i, j, g), i, j, g)
  {
    hide SectorOf, Inherited, GrainAt, HasTable, PowerOfTwo;
    AppendedAt(ch, i, j, g);
    var ch' := Appended(ch, i, j, g);
    forall u: nat, v: nat | GrainAt(ch'.active, u, v) != 0
      ensures GrainAt(ch'.active, u, v) < ch'.active.len && |Grain(ch'.active, GrainAt(ch'.active, u, v))| == ch.cs
    {
      assert !(u == i && v == j) ==> GrainAt(ch'.active, u, v) == GrainAt(ch.active, u, v);
    }
    forall u: nat, v: nat, x: nat
      ensures GrainView(ch', u, v, x) == if u == i && v == j then SectorOf(g, x) else GrainView(ch, u, v, x)
    {
      assert !(u == i && v == j) ==> GrainAt(ch'.active, u, v) == GrainAt(ch.active, u, v);
    }
  }

  // ---------- From grains to sectors ----------

  /** Sectors k .. k + |buf| - 1 are as in buf, all others as before. */
  ghost predicate SectorsSet(ch: Chain, ch': Chain, k: nat, buf: seq<Sector>) {
    forall y: nat :: View(ch', y) == if k <= y < k + |buf| then buf[y - k] else View(ch, y)
  }

  /** What sector y reads as after a write: the rest of a missing grain is what the copy brought. */
  function After(ch: Chain, k: nat, buf: seq<Sector>, y: nat): Sector {
    if k <= y < k + |buf| then buf[y - k]
    else if Touched(ch.cs, k, |buf|, y) && Missing(ch, y) then CopiedSector(ch, y)
    else View(ch, y)
  }

  ghost predicate Wrote(ch: Chain, ch': Chain, k: nat, buf: seq<Sector>) {
    && SameFrame(ch, ch')
    && (forall y: nat :: View(ch', y) == After(ch, k, buf, y))
    && (forall y: nat :: Missing(ch', y) <==> Missing(ch, y) && !Touched(ch.cs, k, |buf|, y))
  }

  /** Both lookups agree on the sectors that a write of n sectors from k on leaves in missing grains. */
  ghost predicate Agree(ch: Chain, k: nat, n: nat) {
    forall y: nat :: Touched(ch.cs, k, n, y) && !(k <= y < k + n) && Missing(ch, y) ==>
      CopiedSector(ch, y) == View(ch, y)
  }

  /** A write changes just the sectors written if and only if both lookups agree on the rest. */
  lemma UpdateIffAgree(ch: Chain, ch': Chain, k: nat, buf: seq<Sector>)
    requires Wrote(ch, ch', k, buf)
    ensures SectorsSet(ch, ch', k, buf) <==> Agree(ch, k, |buf|)
  {
    hide View, Touched, Missing, CopiedSector;
    if SectorsSet(ch, ch', k, buf) {
      forall y: nat | Touched(ch.cs, k, |buf|, y) && !(k <= y < k + |buf|) && Missing(ch, y)
        ensures CopiedSector(ch, y) == View(ch, y)
      {
        assert View(ch', y) == After(ch, k, buf, y);
      }
    } else {
      var y: nat :| View(ch', y) != if k <= y < k + |buf| then buf[y - k] else View(ch, y);
      assert View(ch', y) == After(ch, k, buf, y);
    }
  }

  /** They do agree where no ancestor without a table comes before one that holds the grain. */
  lemma UncutAgrees(ch: Chain, k: nat, n: nat)
    requires forall i: nat, j: nat :: !Cut(ch.parents, i, j)
    ensures Agree(ch, k, n)
  {
    hide Cut, Copied, Inherited, Touched;
    forall y: nat | Missing(ch, y) ensures CopiedSector(ch, y) == View(ch, y) {
      CopiedUnlessCut(ch.parents, DirIndex(ch, y), TabIndex(ch, y));
    }
  }

  /** The active image lacks its one grain, the parent has no directory, the grandparent holds sectors x and y. */
  function ShortParent(x: Sector, y: Sector): Chain {
    Chain(2, 1, Layer([[0]], [[0]], map[], 1), [Layer([], [], map[], 1), Layer([[1]], [[1]], map[1 := [x, y]], 2)])
  }

  /** Writing sector 0 there loses sector 1, unless it was zero. */
  lemma ShortParentLoses(x: Sector, y: Sector)
    requires y != ZeroSector()
    ensures var ch := ShortParent(x, y);
      Valid(ch) && View(ch, 0) == x && View(ch, 1) == y && After(ch, 0, [x], 1) == ZeroSector() && !Agree(ch, 0, 1)
  {
    var ch := ShortParent(x, y);
    assert ch.parents[1..][0] == ch.parents[1];
    assert Inherited(ch.parents, 0, 0) == Inherited(ch.parents[1..], 0, 0) == [x, y];
    assert DirIndex(ch, 1) == 0 && TabIndex(ch, 1) == 0 && 1 % ch.cs == 1;
    assert Touched(ch.cs, 0, 1, 1) && Missing(ch, 1) && CopiedSector(ch, 1) == ZeroSector();
  }

  /** Sector x of grain (i, j) before it is written in part. */
  function Base(ch: Chain, i: nat, j: nat, x: nat): Sector {
    var p := GrainAt(ch.active, i, j);
    SectorOf(if p != 0 then Grain(ch.active, p) else Copied(ch.parents, i, j), x)
  }

  /** The grain of sector k as a write of buf leaves it. */
  function Patched(ch: Chain, k: nat, buf: seq<Sector>): (g: seq<Sector>)
    requires k % ch.cs + |buf| <= ch.cs
    ensures |g| == ch.cs
  {
    var x0, i, j := k % ch.cs, DirIndex(ch, k), TabIndex(ch, k);
    seq(ch.cs, x requires 0 <= x < ch.cs => if x0 <= x < x0 + |buf| then buf[x - x0] else Base(ch, i, j, x))
  }

  /** Sectors of one grain, and no others, share both indexes. */
  lemma SameGrain(ch: Chain, k: nat, y: nat)
    ensures DirIndex(ch, y) == DirIndex(ch, k) && TabIndex(ch, y) == TabIndex(ch, k) <==> y / ch.cs == k / ch.cs
  {
    DivDiv(k, ch.cs, ch.n2);
    DivDiv(y, ch.cs, ch.n2);
    if (y / ch.cs) / ch.n2 == (k / ch.cs) / ch.n2 && (y / ch.cs) % ch.n2 == (k / ch.cs) % ch.n2 {
      DivEqual(y / ch.cs, k / ch.cs, ch.n2);
    }
  }

  /** Where a sector lies relative to the part of a grain that is written. */
  lemma InPatch(cs: Pos, k: nat, n: nat, y: nat)
    requires k % cs + n <= cs
    ensures k <= y < k + n <==> y / cs == k / cs && k % cs <= y % cs < k % cs + n
    ensures y / cs == k / cs ==> y - k == y % cs - k % cs
  {
    if k <= y < k + n {
      DivStep(k, cs, y - k);
    }
    assert y == y / cs * cs + y % cs && k == k / cs * cs + k % cs;
  }

  /** A write within one grain touches that grain alone. */
  lemma TouchesOne(cs: Pos, k: nat, n: nat, y: nat)
    requires k % cs + n <= cs && n > 0
    ensures Touched(cs, k, n, y) <==> y / cs == k / cs
  {
    DivStep(k, cs, n - 1);
  }

  lemma PatchedSets(ch: Chain, ch': Chain, k: nat, buf: seq<Sector>)
    requires k % ch.cs + |buf| <= ch.cs && buf != []
    requires GrainSet(ch, ch', DirIndex(ch, k), TabIndex(ch, k), Patched(ch, k, buf))
    ensures Wrote(ch, ch', k, buf)
  {
    hide GrainView, Patched, Touched, HasTable, GrainAt;
    forall y: nat
      ensures View(ch', y) == After(ch, k, buf, y)
      ensures Missing(ch', y) <==> Missing(ch, y) && !Touched(ch.cs, k, |buf|, y)
    {
      SameGrain(ch, k, y);
      InPatch(ch.cs, k, |buf|, y);
      TouchesOne(ch.cs, k, |buf|, y);
      if y / ch.cs == k / ch.cs {
        PatchedAt(ch, k, buf, y % ch.cs);
        BaseIs(ch, y);
      }
    }
  }

  lemma BaseIs(ch: Chain, y: nat)
    ensures Base(ch, DirIndex(ch, y), TabIndex(ch, y), y % ch.cs)
      == if Missing(ch, y) then CopiedSector(ch, y) else View(ch, y)
  {
    hide DirIndex, TabIndex, Copied, Inherited, GrainAt, SectorOf;
  }

  lemma PatchedAt(ch: Chain, k: nat, buf: seq<Sector>, x: nat)
    requires k % ch.cs + |buf| <= ch.cs && x < ch.cs
    ensures SectorOf(Patched(ch, k, buf), x)
         == if k % ch.cs <= x < k % ch.cs + |buf| then buf[x - k % ch.cs]
           else Base(ch, DirIndex(ch, k), TabIndex(ch, k), x)
  {
    hide Base;
  }

  lemma TouchedThen(cs: Pos, k: nat, n: nat, m: nat, y: nat)
    requires m > 0 && (n == 0 || (k + n) % cs == 0)
    ensures Touched(cs, k, n + m, y) <==> Touched(cs, k, n, y) || Touched(cs, k + n, m, y)
    ensures !(Touched(cs, k, n, y) && Touched(cs, k + n, m, y))
    ensures k <= y < k + n ==> Touched(cs, k, n, y)
    ensures k + n <= y < k + n + m ==> Touched(cs, k + n, m, y)
  {
    DivMono(k + n, k + n + m - 1, cs);
    if n > 0 {
      DivMono(k, k + n - 1, cs);
      BeforeBoundary(cs, k + n);
    }
    if k <= y < k + n {
      DivMono(k, y, cs);
      DivMono(y, k + n - 1, cs);
    }
    if k + n <= y < k + n + m {
      DivMono(k + n, y, cs);
      DivMono(y, k + n + m - 1, cs);
    }
  }

  lemma BeforeBoundary(cs: Pos, k: nat)
    requires k % cs == 0 && k > 0
    ensures (k - 1) / cs == k / cs - 1 && k >= cs
  {
    assert k == k / cs * cs;
    MulMono(1, k / cs, cs);
    DivUnique(k - 1, cs, k / cs - 1, cs - 1);
  }

  lemma WroteThen(ch: Chain, ch1: Chain, ch2: Chain, k: nat, buf: seq<Sector>, n: nat, m: nat)
    requires n + m <= |buf| && m > 0 && (n == 0 || (k + n) % ch.cs == 0)
    requires Wrote(ch, ch1, k, buf[..n]) && Wrote(ch1, ch2, k + n, buf[n..n + m])
    ensures Wrote(ch, ch2, k, buf[..n + m])
  {
    hide View, Touched, Missing, CopiedSector, HasTable;
    forall y: nat
      ensures View(ch2, y) == After(ch, k, buf[..n + m], y)
      ensures Missing(ch2, y) <==> Missing(ch, y) && !Touched(ch.cs, k, n + m, y)
    {
      TouchedThen(ch.cs, k, n, m, y);
      SameCopied(ch, ch1, y);
      assert View(ch1, y) == After(ch, k, buf[..n], y);
      assert View(ch2, y) == After(ch1, k + n, buf[n..n + m], y);
      assert Missing(ch1, y) <==> Missing(ch, y) && !Touched(ch.cs, k, n, y);
    }
  }

  lemma SameCopied(ch: Chain, ch1: Chain, y: nat)
    requires SameFrame(ch, ch1)
    ensures CopiedSector(ch1, y) == CopiedSector(ch, y)
  {
  }

  lemma WroteNothing(ch: Chain, k: nat)
    ensures Wrote(ch, ch, k, [])
  {
  }

  // ---------- vmdk_read and vmdk_write ----------

  function Chunk(cs: Pos, index: nat, n: nat): (m: nat)
    requires index < cs
    ensures m <= n && index + m <= cs && (n > 0 ==> m > 0) && (m == n || index + m == cs)
  {
    if cs - index > n then n else cs - index
  }

  function ParentChain(ch: Chain): Chain
    requires ch.parents != []
  {
    Chain(ch.cs, ch.n2, ch.parents[0], ch.parents[1..])
  }

  /** A missing grain reads as it does in the parent. */
  lemma MissingReads(ch: Chain, y: nat)
    requires Missing(ch, y)
    ensures View(ch, y) == if ch.parents == [] then ZeroSector() else View(ParentChain(ch), y)
  {
  }

  /** The part of a grain that is there, read from its file. */
  lemma PresentReads(ch: Chain, at: nat, m: nat, y: nat)
    requires !Missing(ch, at) && at % ch.cs + m <= ch.cs && at <= y < at + m
    ensures View(ch, y)
         == SectorOf(Grain(ch.active, GrainAt(ch.active, DirIndex(ch, at), TabIndex(ch, at))), at % ch.cs + (y - at))
  {
    InPatch(ch.cs, at, m, y);
    SameGrain(ch, at, y);
  }

  lemma MissingThroughout(ch: Chain, at: nat, m: nat, y: nat)
    requires Missing(ch, at) && at % ch.cs + m <= ch.cs && at <= y < at + m
    ensures Missing(ch, y)
  {
    InPatch(ch.cs, at, m, y);
    SameGrain(ch, at, y);
  }

  /** Each grain from the image's own file, else from the parent, else as zeros. */
  method ReadChain(ch: Chain, k: nat, n: nat) returns (buf: seq<Sector>)
    ensures |buf| == n && forall y: nat :: k <= y < k + n ==> buf[y - k] == View(ch, y)
    decreases |ch.parents|
  {
    hide View, DirIndex, TabIndex, SectorOf, ZeroSector;
    buf := [];
    while |buf| < n
      invariant |buf| <= n && forall y: nat :: k <= y < k + |buf| ==> buf[y - k] == View(ch, y)
    {
      var at := k + |buf|;
      var p := GrainAt(ch.active, DirIndex(ch, at), TabIndex(ch, at));
      var x0 := at % ch.cs;
      var m := Chunk(ch.cs, x0, n - |buf|);
      var part;
      if p != 0 {
        var grain := Grain(ch.active, p);
        part := seq(m, x requires 0 <= x < m => SectorOf(grain, x0 + x));
        forall y: nat | at <= y < at + m ensures part[y - at] == View(ch, y) {
          PresentReads(ch, at, m, y);
        }
      } else {
        if ch.parents != [] {
          part := ReadChain(ParentChain(ch), at, m);
        } else {
          part := seq(m, _ => ZeroSector());
        }
        forall y: nat | at <= y < at + m ensures part[y - at] == View(ch, y) {
          MissingThroughout(ch, at, m, y);
          MissingReads(ch, y);
        }
      }
      buf := buf + part;
    }
  }

  /** What a directory and its tables list for guest sector y, counted in grains and tables from the start. */
  function Listed(l: Layer, cs: Pos, n2: Pos, y: nat): nat {
    var grain := y / cs;
    if grain / n2 < |l.tables| && grain % n2 < |l.tables[grain / n2]| then l.tables[grain / n2][grain % n2] else 0
  }

  /** Image q of the chain, from the active one up, is the nearest that lists a grain for sector y. */
  ghost predicate ListedAt(ch: Chain, y: nat, q: nat) {
    var layers := [ch.active] + ch.parents;
    && q < |layers| && Listed(layers[q], ch.cs, ch.n2, y) != 0
    && forall o :: 0 <= o < q ==> Listed(layers[o], ch.cs, ch.n2, y) == 0
  }

  /** x is sector y of that image, or zeros if there is none. */
  ghost predicate Nearest(ch: Chain, y: nat, x: Sector) {
    var layers := [ch.active] + ch.parents;
    && (forall q: nat :: ListedAt(ch, y, q) ==>
          x == SectorOf(Grain(layers[q], Listed(layers[q], ch.cs, ch.n2, y)), y % ch.cs))
    && ((forall q: nat :: !ListedAt(ch, y, q)) ==> Blank(x))
  }

  lemma ListedIs(l: Layer, ch: Chain, y: nat)
    ensures Listed(l, ch.cs, ch.n2, y) == GrainAt(l, DirIndex(ch, y), TabIndex(ch, y))
  {
    DivDiv(y, ch.cs, ch.n2);
  }

  lemma {:induction false} ViewNearest(ch: Chain, y: nat)
    ensures Nearest(ch, y, View(ch, y))
    decreases |ch.parents|
  {
    hide DirIndex, TabIndex, Listed, SectorOf, Blank, ListedAt;
    ListedIs(ch.active, ch, y);
    if Listed(ch.active, ch.cs, ch.n2, y) != 0 {
      ListedHere(ch, y);
      assert ListedAt(ch, y, 0) && ([ch.active] + ch.parents)[0] == ch.active;
    } else if ch.parents == [] {
      ListedNowhere(ch, y);
      NothingBlank(y % ch.cs);
    } else {
      ViewNearest(ParentChain(ch), y);
      MissingReads(ch, y);
      NearestUp(ch, y, View(ch, y));
    }
  }

  lemma ListedHere(ch: Chain, y: nat)
    requires Listed(ch.active, ch.cs, ch.n2, y) != 0
    ensures forall q: nat :: ListedAt(ch, y, q) <==> q == 0
  {
    hide Listed;
    assert ([ch.active] + ch.parents)[0] == ch.active;
  }

  lemma ListedNowhere(ch: Chain, y: nat)
    requires Listed(ch.active, ch.cs, ch.n2, y) == 0 && ch.parents == []
    ensures forall q: nat :: !ListedAt(ch, y, q)
  {
    hide Listed;
  }

  lemma NothingBlank(x: nat)
    ensures Blank(SectorOf([], x))
  {
  }

  lemma NearestUp(ch: Chain, y: nat, x: Sector)
    requires ch.parents != [] && Listed(ch.active, ch.cs, ch.n2, y) == 0 && Nearest(ParentChain(ch), y, x)
    ensures Nearest(ch, y, x)
  {
    hide Listed, SectorOf, Blank, ListedAt;
    var up := ParentChain(ch);
    var layers, above := [ch.active] + ch.parents, [up.active] + up.parents;
    assert above == ch.parents;
    forall q: nat | ListedAt(ch, y, q)
      ensures q < |layers| && x == SectorOf(Grain(layers[q], Listed(layers[q], ch.cs, ch.n2, y)), y % ch.cs)
    {
      ListedUp(ch, y, q);
      assert layers[q] == above[q - 1];
    }
    forall q: nat | ListedAt(up, y, q) ensures ListedAt(ch, y, q + 1) {
      ListedUp(ch, y, q + 1);
    }
  }

  lemma ListedUp(ch: Chain, y: nat, q: nat)
    requires ch.parents != [] && Listed(ch.active, ch.cs, ch.n2, y) == 0
    ensures q > 0 && ListedAt(ParentChain(ch), y, q - 1) <==> ListedAt(ch, y, q)
    ensures ListedAt(ch, y, q) ==> q <= |ch.parents|
  {
    hide Listed;
    var up := ParentChain(ch);
    var layers, above := [ch.active] + ch.parents, [up.active] + up.parents;
    assert above == ch.parents;
    forall o | 0 < o < |layers| ensures layers[o] == above[o - 1] {}
    if q > 0 && ListedAt(up, y, q - 1) {
      forall o | 0 <= o < q ensures Listed(layers[o], ch.cs, ch.n2, y) == 0 {
        assert o > 0 ==> layers[o] == above[o - 1];
      }
    }
    if ListedAt(ch, y, q) {
      forall o | 0 <= o < q - 1 ensures Listed(above[o], ch.cs, ch.n2, y) == 0 {
        assert layers[o + 1] == above[o];
      }
    }
  }

  /** buf holds what the chain does from sector k on. */
  ghost predicate ReadsNearest(ch: Chain, k: nat, buf: seq<Sector>) {
    forall i :: 0 <= i < |buf| ==> Nearest(ch, k + i, buf[i])
  }

  lemma ReadNearest(ch: Chain, k: nat, buf: seq<Sector>)
    requires forall y: nat :: k <= y < k + |buf| ==> buf[y - k] == View(ch, y)
    ensures ReadsNearest(ch, k, buf)
  {
    hide View, Nearest;
    forall i | 0 <= i < |buf| ensures Nearest(ch, k + i, buf[i]) {
      ViewNearest(ch, k + i);
      assert View(ch, k + i) == buf[i];
    }
  }

  class VmdkImage {
    var ch: Chain
    const total: nat

    /** The grain the chain of parents supplies for a first write, zeros when none does (get_whole_cluster). */
    method GetWholeCluster(i: nat, j: nat) returns (g: seq<Sector>)
      ensures |g| == ch.cs && forall x :: 0 <= x < ch.cs ==> g[x] == SectorOf(Copied(ch.parents, i, j), x)
    {
      hide SectorOf, GrainAt, Grain, HasTable;
      var a, done := 0, false;
      var found: seq<Sector> := [];
      while a < |ch.parents| && !done
        invariant a <= |ch.parents|
        invariant Copied(ch.parents, i, j) == if done then found else Copied(ch.parents[a..], i, j)
        invariant !done ==> found == []
        decreases |ch.parents| - a, if done then 0 else 1
      {
        assert ch.parents[a..][1..] == ch.parents[a + 1..];
        if !HasTable(ch.parents[a], i) {
          done := true;
        } else if GrainAt(ch.parents[a], i, j) != 0 {
          found, done := Grain(ch.parents[a], GrainAt(ch.parents[a], i, j)), true;
        } else {
          a := a + 1;
        }
      }
      var grain, n := found, ch.cs;
      g := seq(n, x requires 0 <= x < n => SectorOf(grain, x));
    }

    /** The grain as it is, or as the parents supply it, with buf written over part of it. */
    method MakeGrain(i: nat, j: nat, x0: nat, buf: seq<Sector>) returns (g: seq<Sector>)
      requires Valid(ch) && x0 + |buf| <= ch.cs
      ensures |g| == ch.cs
      ensures forall x :: 0 <= x < ch.cs ==> g[x] == if x0 <= x < x0 + |buf| then buf[x - x0] else Base(ch, i, j, x)
    {
      var p := GrainAt(ch.active, i, j);
      var before;
      if p != 0 {
        before := Grain(ch.active, p);
      } else {
        before := GetWholeCluster(i, j);
      }
      g := before[..x0] + buf + before[x0 + |buf|..];
    }

    /** Write the part of buf that falls in one grain. */
    method WriteGrain(k: nat, buf: seq<Sector>) returns (ok: bool)
      requires Valid(ch) && k % ch.cs + |buf| <= ch.cs && buf != []
      modifies `ch
      ensures Valid(ch) && ok == HasTable(old(ch).active, DirIndex(old(ch), k))
      ensures if ok then Wrote(old(ch), ch, k, buf) else ch == old(ch)
    {
      hide GrainsOK, Distinct, GrainSet, Wrote, GrainView, Base, PowerOfTwo;
      var i, j := DirIndex(ch, k), TabIndex(ch, k);
      ok := HasTable(ch.active, i);
      if !ok {
        return;
      }
      ghost var ch0 := ch;
      var g := MakeGrain(i, j, k % ch.cs, buf);
      assert g == Patched(ch, k, buf);
      if GrainAt(ch.active, i, j) != 0 {
        RewrittenSets(ch, i, j, g);
        ch := Rewritten(ch, i, j, g);
      } else {
        AppendedSets(ch, i, j, g);
        ch := Appended(ch, i, j, g);
      }
      PatchedSets(ch0, ch, k, buf);
    }

    /** Just the sectors written change, if and only if both lookups agree on the rest of the missing grains; the
        parents stay as they are. The write stops at a grain without a table. */
    method Write(k: nat, buf: seq<Sector>) returns (r: int)
      requires Valid(ch)
      modifies `ch
      ensures Valid(ch)
      ensures r == if k > total || !AllTables(old(ch), k, |buf|) then -1 else 0
      ensures r == 0 ==> Wrote(old(ch), ch, k, buf) && (SectorsSet(old(ch), ch, k, buf) <==> Agree(old(ch), k, |buf|))
      ensures k > total ==> ch == old(ch)
      ensures r != 0 && k <= total ==> exists n: nat ::
        && n < |buf| && Wrote(old(ch), ch, k, buf[..n]) && AllTables(old(ch), k, n)
        && !HasTable(old(ch).active, DirIndex(old(ch), k + n))
    {
      hide TablesOK, GrainsOK, Distinct, Wrote, SectorsSet, Agree, HasTable, DirIndex, PowerOfTwo;
      WroteNothing(ch, k);
      assert buf[..0] == [];
      if k > total {
        return -1;
      }
      var n := 0;
      while n < |buf|
        invariant n <= |buf| && Valid(ch) && Wrote(old(ch), ch, k, buf[..n]) && AllTables(old(ch), k, n)
        invariant n == 0 || n == |buf| || (k + n) % ch.cs == 0
      {
        ghost var ch1 := ch;
        WroteFrame(old(ch), ch1, k, buf[..n]);
        MaskIsMod(k + n, ch.cs);
        var index := BitAnd(k + n, ch.cs - 1);
        var m := Chunk(ch.cs, index, |buf| - n);
        var ok := WriteGrain(k + n, buf[n..n + m]);
        if !ok {
          assert !HasTable(old(ch).active, DirIndex(old(ch), k + n));
          return -1;
        }
        TablesThen(old(ch), k, n, m);
        WroteThen(old(ch), ch1, ch, k, buf, n, m);
        ChunkEnds(ch1.cs, k + n, m);
        WroteFrame(ch1, ch, k + n, buf[n..n + m]);
        n := n + m;
      }
      assert buf[..n] == buf;
      UpdateIffAgree(old(ch), ch, k, buf);
      r := 0;
    }

    method Read(k: nat, n: nat) returns (buf: seq<Sector>)
      ensures |buf| == n && ReadsNearest(ch, k, buf)
      ensures forall y: nat :: k <= y < k + n ==> buf[y - k] == View(ch, y)
    {
      hide View, ReadsNearest;
      buf := ReadChain(ch, k, n);
      ReadNearest(ch, k, buf);
    }
  }

  /** Every grain of sectors k .. k + n - 1 has a table to be listed in. */
  ghost predicate AllTables(ch: Chain, k: nat, n: nat) {
    forall y: nat :: k <= y < k + n ==> HasTable(ch.active, DirIndex(ch, y))
  }

  lemma TablesThen(ch: Chain, k: nat, n: nat, m: nat)
    requires AllTables(ch, k, n) && HasTable(ch.active, DirIndex(ch, k + n)) && (k + n) % ch.cs + m <= ch.cs
    ensures AllTables(ch, k, n + m)
  {
    hide HasTable;
    forall y: nat | k <= y < k + n + m ensures HasTable(ch.active, DirIndex(ch, y)) {
      if y >= k + n {
        InPatch(ch.cs, k + n, m, y);
        SameGrain(ch, k + n, y);
      }
    }
  }

  lemma WroteFrame(ch: Chain, ch': Chain, k: nat, buf: seq<Sector>)
    requires Wrote(ch, ch', k, buf)
    ensures ch'.cs == ch.cs && forall y: nat :: DirIndex(ch', y) == DirIndex(ch, y)
    ensures forall i: nat :: HasTable(ch'.active, i) <==> HasTable(ch.active, i)
  {
  }

  lemma ChunkEnds(cs: Pos, k: nat, m: nat)
    ensures k % cs + m == cs ==> (k + m) % cs == 0
  {
    if k % cs + m == cs {
      DivUnique(k + m, cs, k / cs + 1, 0);
    }
  }
}

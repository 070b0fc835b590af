/** Compressed clusters: where alloc_bytes puts the pieces, and how an L2 entry describes one. */
module Compressed {
  import opened Arith
  import opened Qcow2Format
  import opened Qcow2Grow

  /** A piece of compressed data in the host file, in bytes. */
  datatype Piece = Piece(at: nat, size: nat)

  predicate Overlap(p: Piece, q: Piece) { p.at < q.at + q.size && q.at < p.at + p.size }

  /** Cluster c holds some byte of the piece. */
  predicate Touches(cs: Pos, p: Piece, c: nat) { p.size > 0 && p.at / cs <= c <= (p.at + p.size - 1) / cs }

  /** How many of the pieces have a byte in cluster c. */
  function Touching(cs: Pos, ps: seq<Piece>, c: nat): nat {
    if ps == [] then 0 else Touching(cs, ps[..|ps| - 1], c) + B(Touches(cs, ps[|ps| - 1], c))
  }

  lemma {:induction false} TouchingMember(cs: Pos, ps: seq<Piece>, i: nat, c: nat)
    requires i < |ps| && Touches(cs, ps[i], c)
    ensures Touching(cs, ps, c) > 0
  {
    if i < |ps| - 1 {
      TouchingMember(cs, ps[..|ps| - 1], i, c);
    }
  }

  predicate Disjoint(ps: seq<Piece>) {
    forall i, j :: 0 <= i < j < |ps| ==> !Overlap(ps[i], ps[j])
  }

  // ---------- The state of the allocator ----------

  /** free is free_byte_offset: 0, or a byte strictly inside a cluster that was allocated for pieces. Past it, that
      cluster is unused. */
  datatype Bytes = Bytes(cs: Pos, cnt: map<nat, nat>, free: nat, base: map<nat, nat>, pieces: seq<Piece>)

  /** Each count is what it was at first plus one for each piece with a byte in the cluster. */
  ghost predicate Exact(s: Bytes) {
    forall c: nat :: CountOf(s.cnt, c) == CountOf(s.base, c) + Touching(s.cs, s.pieces, c)
  }

  /** No piece reaches past `free` in its cluster. */
  predicate Below(s: Bytes) {
    s.free != 0 ==> s.free % s.cs != 0 && forall i ::
      0 <= i < |s.pieces| && Touches(s.cs, s.pieces[i], s.free / s.cs) ==> s.pieces[i].at + s.pieces[i].size <= s.free
  }

  ghost predicate Valid(s: Bytes) {
    && CountOf(s.base, 0) > 0 && Exact(s) && Below(s) && Disjoint(s.pieces)
    && forall i :: 0 <= i < |s.pieces| ==> s.pieces[i].size > 0
  }

  /** A piece that lies in clusters of its own, or past `free` in its cluster, overlaps no other. */
  predicate Clear(s: Bytes, p: Piece) {
    forall i :: 0 <= i < |s.pieces| ==> !Overlap(s.pieces[i], p)
  }

  lemma ByteInPiece(cs: Pos, p: Piece, x: nat)
    requires p.at <= x < p.at + p.size
    ensures Touches(cs, p, x / cs)
  {
    DivMono(p.at, x, cs);
    DivMono(x, p.at + p.size - 1, cs);
  }

  /** Overlapping pieces share a byte, hence a cluster. */
  lemma OverlapShares(cs: Pos, p: Piece, q: Piece) returns (x: nat)
    requires Overlap(p, q) && p.size > 0 && q.size > 0
    ensures p.at <= x < p.at + p.size && q.at <= x < q.at + q.size && Touches(cs, p, x / cs) && Touches(cs, q, x / cs)
  {
    x := if p.at < q.at then q.at else p.at;
    ByteInPiece(cs, p, x);
    ByteInPiece(cs, q, x);
  }

  /** Adding a piece. */
  function Added(s: Bytes, cnt: map<nat, nat>, free: nat, p: Piece): Bytes {
    s.(cnt := cnt, free := free, pieces := s.pieces + [p])
  }

  lemma AddedExact(s: Bytes, cnt: map<nat, nat>, free: nat, p: Piece)
    requires Exact(s) && forall c: nat :: CountOf(cnt, c) == CountOf(s.cnt, c) + B(Touches(s.cs, p, c))
    ensures Exact(Added(s, cnt, free, p))
  {
    hide Touches;
    var s' := Added(s, cnt, free, p);
    assert s'.pieces[..|s.pieces|] == s.pieces;
  }

  lemma AddedDisjoint(s: Bytes, cnt: map<nat, nat>, free: nat, p: Piece)
    requires Disjoint(s.pieces) && Clear(s, p)
    ensures Disjoint(Added(s, cnt, free, p).pieces)
  {
    hide Overlap;
  }

  /** A cluster with count 0 holds no piece. */
  lemma FreshUntouched(s: Bytes, c: nat)
    requires Exact(s) && CountOf(s.cnt, c) == 0
    ensures forall i :: 0 <= i < |s.pieces| ==> !Touches(s.cs, s.pieces[i], c)
  {
    forall i | 0 <= i < |s.pieces| ensures !Touches(s.cs, s.pieces[i], c) {
      if Touches(s.cs, s.pieces[i], c) {
        TouchingMember(s.cs, s.pieces, i, c);
      }
    }
  }

  /** p lies past `free` in its cluster, and otherwise in the fresh cluster o. */
  lemma ClearPast(s: Bytes, p: Piece, o: nat)
    requires Valid(s) && p.size > 0
    requires forall c: nat :: Touches(s.cs, p, c) ==> c == o || (s.free != 0 && c == s.free / s.cs && p.at >= s.free)
    requires forall i :: 0 <= i < |s.pieces| ==> !Touches(s.cs, s.pieces[i], o)
    ensures Clear(s, p)
  {
    hide Touches, Touching, Exact, Disjoint;
    forall i | 0 <= i < |s.pieces| ensures !Overlap(s.pieces[i], p) {
      if Overlap(s.pieces[i], p) {
        var x := OverlapShares(s.cs, s.pieces[i], p);
      }
    }
  }

  lemma InCluster(x: nat, cs: Pos, q: nat)
    requires q * cs <= x < q * cs + cs
    ensures x / cs == q && x % cs == x - q * cs
  {
    DivUnique(x, cs, q, x - q * cs);
  }

  /** A piece inside one cluster. */
  lemma TouchesOne(cs: Pos, p: Piece, q: nat)
    requires p.size > 0 && q * cs <= p.at && p.at + p.size <= q * cs + cs
    ensures forall c: nat :: Touches(cs, p, c) <==> c == q
  {
    InCluster(p.at, cs, q);
    InCluster(p.at + p.size - 1, cs, q);
  }

  /** A piece across a cluster boundary. */
  lemma TouchesTwo(cs: Pos, p: Piece, q: nat)
    requires q * cs <= p.at < q * cs + cs < p.at + p.size <= q * cs + cs + cs
    ensures forall c: nat :: Touches(cs, p, c) <==> c == q || c == q + 1
  {
    InCluster(p.at, cs, q);
    InCluster(p.at + p.size - 1, cs, q + 1);
  }

  /** Where `free` goes after a piece that ends at `end`, in cluster q. */
  function After(cs: Pos, end: nat): nat { if end % cs == 0 then 0 else end }

  lemma AfterIs(cs: Pos, end: nat)
    ensures After(cs, end) == if end % cs == 0 then 0 else end
  {
  }

  lemma AfterBelow(s: Bytes, cnt: map<nat, nat>, p: Piece, q: nat)
    requires p.size > 0 && q * s.cs < p.at + p.size <= q * s.cs + s.cs
    requires forall i ::
      0 <= i < |s.pieces| && Touches(s.cs, s.pieces[i], q) ==> s.pieces[i].at + s.pieces[i].size <= p.at + p.size
    ensures Below(Added(s, cnt, After(s.cs, p.at + p.size), p))
  {
    hide Touches;
    if (p.at + p.size) % s.cs != 0 {
      if p.at + p.size == q * s.cs + s.cs {
        DivUnique(p.at + p.size, s.cs, q + 1, 0);
      }
      InCluster(p.at + p.size, s.cs, q);
    }
  }

  /** The three ways a piece is placed: in the current cluster, at the start of a fresh one, or across both. */
  lemma FitsCurrent(s: Bytes, size: nat, cnt: map<nat, nat>)
    requires Valid(s) && s.free != 0 && 0 < size <= s.cs - s.free % s.cs
    requires forall c: nat :: CountOf(cnt, c) == CountOf(s.cnt, c) + B(c == s.free / s.cs)
    ensures Valid(Added(s, cnt, After(s.cs, s.free + size), Piece(s.free, size)))
  {
    hide Touches, Overlap, Touching;
    var p, q := Piece(s.free, size), s.free / s.cs;
    TouchesOne(s.cs, p, q);
    AddedExact(s, cnt, After(s.cs, s.free + size), p);
    CurrentClear(s, p);
    AddedDisjoint(s, cnt, After(s.cs, s.free + size), p);
    AfterBelow(s, cnt, p, q);
  }

  /** A piece past `free`, in the current cluster alone. */
  lemma CurrentClear(s: Bytes, p: Piece)
    requires Valid(s) && s.free != 0 && p.size > 0 && p.at >= s.free
    requires forall c: nat :: Touches(s.cs, p, c) <==> c == s.free / s.cs
    ensures Clear(s, p)
  {
    hide Touches, Touching, Exact, Disjoint;
    forall i | 0 <= i < |s.pieces| ensures !Overlap(s.pieces[i], p) {
      if Overlap(s.pieces[i], p) {
        var x := OverlapShares(s.cs, s.pieces[i], p);
      }
    }
  }

  lemma FitsFresh(s: Bytes, size: nat, o: nat, cnt: map<nat, nat>)
    requires Valid(s) && 0 < size <= s.cs && CountOf(s.cnt, o) == 0
    requires forall c: nat :: CountOf(cnt, c) == CountOf(s.cnt, c) + B(c == o)
    ensures Valid(Added(s, cnt, After(s.cs, o * s.cs + size), Piece(o * s.cs, size)))
  {
    hide Touches, Overlap, Touching;
    var p := Piece(o * s.cs, size);
    TouchesOne(s.cs, p, o);
    AddedExact(s, cnt, After(s.cs, o * s.cs + size), p);
    FreshUntouched(s, o);
    ClearPast(s, p, o);
    AddedDisjoint(s, cnt, After(s.cs, o * s.cs + size), p);
    AfterBelow(s, cnt, p, o);
  }

  lemma FreeInside(s: Bytes)
    requires Valid(s) && s.free != 0
    ensures var q := s.free / s.cs; q * s.cs < s.free < q * s.cs + s.cs && s.free % s.cs == s.free - q * s.cs
  {
    DivUnique(s.free, s.cs, s.free / s.cs, s.free % s.cs);
  }

  lemma Spills(s: Bytes, size: nat, q: nat, cnt: map<nat, nat>)
    requires Valid(s) && s.free != 0 && q == s.free / s.cs && CountOf(s.cnt, q + 1) == 0
    requires q * s.cs <= s.free < q * s.cs + s.cs < s.free + size && size <= s.cs
    requires forall c: nat :: CountOf(cnt, c) == CountOf(s.cnt, c) + B(c == q) + B(c == q + 1)
    ensures Valid(Added(s, cnt, s.free + size, Piece(s.free, size)))
  {
    hide Touches, Overlap, Touching, Exact, Disjoint, Below, Clear, After;
    var p := Piece(s.free, size);
    TouchesTwo(s.cs, p, q);
    AddedExact(s, cnt, s.free + size, p);
    FreshUntouched(s, q + 1);
    ClearPast(s, p, q + 1);
    AddedDisjoint(s, cnt, s.free + size, p);
    SpillEnd(s, size, q);
    AfterBelow(s, cnt, p, q + 1);
  }

  /** A piece that spills over ends strictly inside the next cluster. */
  lemma SpillEnd(s: Bytes, size: nat, q: nat)
    requires q * s.cs <= s.free < q * s.cs + s.cs < s.free + size && size <= s.cs
    ensures (q + 1) * s.cs < s.free + size < (q + 1) * s.cs + s.cs && After(s.cs, s.free + size) == s.free + size
  {
    InCluster(s.free + size, s.cs, q + 1);
  }

  // ---------- alloc_bytes ----------

  /** c is the first cluster from `from` on that is not counted. */
  ghost predicate FirstFree(cnt: map<nat, nat>, from: nat, c: nat) {
    from <= c && CountOf(cnt, c) == 0 && forall x: nat :: from <= x < c ==> CountOf(cnt, x) > 0
  }

  /** Where a piece goes: in the room left, or across into the next cluster if that is the first free one, or at the
      start of the first free one. */
  ghost predicate Sited(s: Bytes, from: nat, size: nat, offset: nat, from': nat) {
    if s.free != 0 && size <= s.cs - s.free % s.cs then offset == s.free && from' == from
    else forall c: nat :: FirstFree(s.cnt, from, c) ==>
      from' == c + 1 && offset == if s.free != 0 && c == s.free / s.cs + 1 then s.free else c * s.cs
  }

  lemma SitedAt(s: Bytes, from: nat, size: nat, offset: nat, o: nat)
    requires !(s.free != 0 && size <= s.cs - s.free % s.cs) && FirstFree(s.cnt, from, o)
    requires offset == if s.free != 0 && o == s.free / s.cs + 1 then s.free else o * s.cs
    ensures Sited(s, from, size, offset, o + 1)
  {
    forall c: nat | FirstFree(s.cnt, from, c) ensures c == o {
      assert c < o ==> CountOf(s.cnt, c) > 0;
      assert o < c ==> CountOf(s.cnt, o) > 0;
    }
  }

  lemma SitedHere(s: Bytes, from: nat, size: nat)
    requires s.free != 0 && size <= s.cs - s.free % s.cs
    ensures Sited(s, from, size, s.free, from)
  {
  }

  class ByteAllocator {
    var s: Bytes
    // Where to look for a free cluster.
    var freeIndex: nat

    /** alloc_clusters for one cluster. */
    method AllocCluster() returns (c: nat)
      requires CountOf(s.cnt, 0) > 0
      modifies this
      ensures c != 0 && FirstFree(old(s.cnt), old(freeIndex), c) && s == old(s).(cnt := s.cnt) && freeIndex == c + 1
      ensures CountOf(old(s.cnt), c) == 0
      ensures forall x: nat :: CountOf(s.cnt, x) == CountOf(old(s.cnt), x) + B(x == c)
    {
      ghost var m := KeyBound(s.cnt.Keys);
      while freeIndex in s.cnt && s.cnt[freeIndex] != 0
        invariant s == old(s) && old(freeIndex) <= freeIndex
        invariant forall x :: old(freeIndex) <= x < freeIndex ==> CountOf(s.cnt, x) > 0
        decreases m - freeIndex
      {
        freeIndex := freeIndex + 1;
      }
      c := freeIndex;
      freeIndex := freeIndex + 1;
      s := s.(cnt := s.cnt[c := 1]);
    }

    method Count(c: nat)
      requires CountOf(s.cnt, c) < MAX_COUNT
      modifies this
      ensures s == old(s).(cnt := s.cnt) && freeIndex == old(freeIndex)
      ensures forall x: nat :: CountOf(s.cnt, x) == CountOf(old(s.cnt), x) + B(x == c)
    {
      s := s.(cnt := s.cnt[c := CountOf(s.cnt, c) + 1]);
    }

    /** A piece of `size` bytes, added to those there are; what holds of them all goes on holding. */
    method AllocBytes(size: nat) returns (offset: nat)
      requires Valid(s) && 0 < size <= s.cs && (s.free != 0 ==> CountOf(s.cnt, s.free / s.cs) < MAX_COUNT)
      modifies this
      ensures Valid(s) && s.pieces == old(s.pieces) + [Piece(offset, size)] && s.cs == old(s.cs)
      ensures s.base == old(s.base)
      ensures s.free == if (offset + size) % s.cs == 0 then 0 else offset + size
      ensures Sited(old(s), old(freeIndex), size, offset, freeIndex)
    {
      hide Exact, Below, Disjoint, Touching, Sited, FirstFree, Valid, After;
      ghost var s0 := s;
      HeaderCounted(s0);
      ghost var from := freeIndex;
      if s.free == 0 {
        var o := AllocCluster();
        FitsFresh(s0, size, o, s.cnt);
        offset := o * s.cs;
        SitedAt(s0, from, size, offset, o);
        AfterIs(s.cs, offset + size);
        s := Added(s, s.cnt, After(s.cs, offset + size), Piece(offset, size));
        return;
      }
      var q := s.free / s.cs;
      if size <= s.cs - s.free % s.cs {
        Count(q);
        FitsCurrent(s0, size, s.cnt);
        SitedHere(s0, from, size);
        offset := s.free;
        AfterIs(s.cs, offset + size);
        s := Added(s, s.cnt, After(s.cs, offset + size), Piece(offset, size));
        return;
      }
      offset := AllocNext(size, q);
    }

    /** The room left in cluster q does not do. */
    method AllocNext(size: nat, q: nat) returns (offset: nat)
      requires Valid(s) && s.free != 0 && s.cs - s.free % s.cs < size <= s.cs && q == s.free / s.cs
      requires CountOf(s.cnt, q) < MAX_COUNT
      modifies this
      ensures Valid(s) && s.pieces == old(s.pieces) + [Piece(offset, size)] && s.cs == old(s.cs)
      ensures s.base == old(s.base)
      ensures s.free == if (offset + size) % s.cs == 0 then 0 else offset + size
      ensures Sited(old(s), old(freeIndex), size, offset, freeIndex)
    {
      hide Exact, Below, Disjoint, Touching, Sited, FirstFree, Valid;
      ghost var s0, from := s, freeIndex;
      HeaderCounted(s0);
      FreeInside(s0);
      var o := AllocCluster();
      if o == q + 1 {
        Count(q);
        Spills(s0, size, q, s.cnt);
        SpillEnd(s0, size, q);
        offset := s.free;
        s := Added(s, s.cnt, offset + size, Piece(offset, size));
      } else {
        FitsFresh(s0, size, o, s.cnt);
        offset := o * s.cs;
        s := Added(s, s.cnt, After(s.cs, offset + size), Piece(offset, size));
      }
      SitedAt(s0, from, size, offset, o);
    }
  }

  lemma HeaderCounted(s: Bytes)
    requires Valid(s)
    ensures CountOf(s.cnt, 0) > 0
  {
    assert CountOf(s.cnt, 0) == CountOf(s.base, 0) + Touching(s.cs, s.pieces, 0);
  }

  lemma KeyBound(keys: set<nat>) returns (m: nat)
    ensures forall c :: c in keys ==> c < m
    decreases keys
  {
    if keys == {} {
      m := 0;
    } else {
      var k :| k in keys;
      var m' := KeyBound(keys - {k});
      m := if m' <= k then k + 1 else m';
      forall c | c in keys ensures c < m {
        assert c == k || c in keys - {k};
      }
    }
  }

  // ---------- The descriptor of a compressed cluster ----------

  function Pow2(n: nat): (r: nat)
    ensures r > 0
  {
    if n == 0 then 1 else 2 * Pow2(n - 1)
  }

  lemma {:induction false} Pow2Sum(m: nat, n: nat)
    ensures Pow2(m + n) == Pow2(m) * Pow2(n)
  {
    if n > 0 {
      Pow2Sum(m, n - 1);
      assert 2 * (Pow2(m) * Pow2(n - 1)) == Pow2(m) * (2 * Pow2(n - 1));
    } else {
      assert Pow2(m) * 1 == Pow2(m);
    }
  }

  predicate ClusterBits(bits: nat) { 9 <= bits <= 16 }

  /** csize_shift, and the number of values of the sector-count field. */
  function Shift(bits: nat): nat
    requires ClusterBits(bits)
  {
    62 - (bits - 8)
  }

  function Field(bits: nat): nat
    requires ClusterBits(bits)
  {
    Pow2(bits - 8)
  }

  /** Sectors the piece reaches into, beyond the first. */
  function MoreSectors(p: Piece): nat
    requires p.size > 0
  {
    DivMono(p.at, p.at + p.size - 1, 512);
    (p.at + p.size - 1) / 512 - p.at / 512
  }

  /** The L2 entry: the byte offset, the sector count above it, and QCOW_OFLAG_COMPRESSED above that. */
  function Describe(bits: nat, p: Piece): nat
    requires ClusterBits(bits) && p.size > 0
  {
    p.at + MoreSectors(p) * Pow2(Shift(bits)) + Pow2(62)
  }

  /** What decompress_cluster and the freeing code take out of it. */
  function OffsetOf(bits: nat, v: nat): nat
    requires ClusterBits(bits)
  {
    v % Pow2(Shift(bits))
  }

  function SectorsOf(bits: nat, v: nat): nat
    requires ClusterBits(bits)
  {
    (v / Pow2(Shift(bits))) % Field(bits) + 1
  }

  lemma MoreSectorsBound(bits: nat, p: Piece)
    requires ClusterBits(bits) && 0 < p.size <= Pow2(bits)
    ensures MoreSectors(p) <= Pow2(bits - 9) && MoreSectors(p) < Field(bits)
    ensures (MoreSectors(p) + 1) * 512 <= Pow2(bits) + 512
  {
    Pow2Sum(bits - 9, 9);
    Pow2Nine();
    Pow2Sum(bits - 9, 1);
    assert Pow2(1) == 2;
  }

  /** For every cluster size: the offset and the sector count come back as they went in. */
  lemma DescribeDecodes(bits: nat, p: Piece)
    requires ClusterBits(bits) && 0 < p.size <= Pow2(bits) && p.at < Pow2(Shift(bits))
    ensures OffsetOf(bits, Describe(bits, p)) == p.at && SectorsOf(bits, Describe(bits, p)) == MoreSectors(p) + 1
  {
    hide Pow2;
    var P, F, n := Pow2(Shift(bits)), Field(bits), MoreSectors(p);
    Pow2Sum(Shift(bits), bits - 8);
    MoreSectorsBound(bits, p);
    assert Describe(bits, p) == (n + F) * P + p.at by {
      assert n * P + P * F == (n + F) * P;
    }
    DivUnique(Describe(bits, p), P, n + F, p.at);
    DivUnique(n + F, F, 1, n);
  }

  /** Bit 62 is the flag; the sector count takes the bits - 8 bits below it, and the offset what is left. */
  lemma DescribeLayout(bits: nat, p: Piece)
    requires ClusterBits(bits) && p.size > 0
    ensures 0x4000_0000_0000_0000 % Pow2(bits - 8) == 0
    ensures Describe(bits, p)
      == p.at + MoreSectors(p) * (0x4000_0000_0000_0000 / Pow2(bits - 8)) + 0x4000_0000_0000_0000
  {
    hide Pow2;
    Pow2Sum(Shift(bits), bits - 8);
    Pow2High();
    DivUnique(0x4000_0000_0000_0000, Pow2(bits - 8), Pow2(Shift(bits)), 0);
  }

  lemma Pow2High()
    ensures Pow2(62) == 0x4000_0000_0000_0000
  {
    hide Pow2;
    Pow2Nine();
    Pow2Sum(9, 9);
    Pow2Sum(18, 9);
    Pow2Sum(27, 9);
    Pow2Sum(36, 9);
    Pow2Sum(45, 9);
    Pow2Sum(54, 8);
    Pow2Sum(1, 8);
    Pow2One();
  }

  lemma Pow2One()
    ensures Pow2(1) == 2
  {
  }

  /** The sectors a descriptor names, as a range of bytes. */
  function SectorRange(bits: nat, v: nat): Piece
    requires ClusterBits(bits)
  {
    Piece(OffsetOf(bits, v) / 512 * 512, SectorsOf(bits, v) * 512)
  }

  /** They hold the whole piece, fit the buffer of one cluster and one sector, and lie in exactly the clusters
      that were counted for it. */
  lemma DescribeCovers(bits: nat, p: Piece)
    requires ClusterBits(bits) && 0 < p.size <= Pow2(bits) && p.at < Pow2(Shift(bits))
    ensures var r := SectorRange(bits, Describe(bits, p));
      && r.at <= p.at && p.at + p.size <= r.at + r.size && r.size <= Pow2(bits) + 512
      && forall c: nat :: Touches(Pow2(bits), r, c) <==> Touches(Pow2(bits), p, c)
  {
    hide Pow2, OffsetOf, SectorsOf, Describe;
    DescribeDecodes(bits, p);
    MoreSectorsBound(bits, p);
    var r := SectorRange(bits, Describe(bits, p));
    var a, z := p.at / 512, (p.at + p.size - 1) / 512;
    assert r.at == a * 512 && r.at + r.size - 1 == z * 512 + 511;
    SectorCluster(bits, p.at, r.at);
    SectorCluster(bits, p.at + p.size - 1, r.at + r.size - 1);
  }

  /** Bytes of one sector lie in one cluster. */
  lemma SectorCluster(bits: nat, x: nat, y: nat)
    requires ClusterBits(bits) && x / 512 == y / 512
    ensures x / Pow2(bits) == y / Pow2(bits)
  {
    hide Pow2;
    Pow2Sum(9, bits - 9);
    Pow2Nine();
    DivDiv(x, 512, Pow2(bits - 9));
    DivDiv(y, 512, Pow2(bits - 9));
  }

  lemma Pow2Nine()
    ensures Pow2(9) == 512
  {
    assert Pow2(3) == 8;
    assert Pow2(6) == 64;
  }
}

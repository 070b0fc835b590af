/** Guest sectors, the clusters they fall in, and what writing some of them means. */
module Qcow2Guest {
  import opened Arith
  import opened Qcow2Format
  import opened Qcow2State
  import opened Qcow2Relink

  /** Sectors from k to the end of its guest cluster, at most n. */
  function Chunk(g: Geometry, k: nat, n: nat): (r: nat)
    ensures r <= n && k % g.cs + r <= g.cs && (n > 0 ==> r > 0)
  {
    var room := g.cs - k % g.cs;
    if room > n then n else room
  }

  lemma SameGuestCluster(g: Geometry, k: nat, x: nat)
    requires k % g.cs + x < g.cs
    ensures L1Index(g, k + x) == L1Index(g, k) && L2Index(g, k + x) == L2Index(g, k) && (k + x) % g.cs == k % g.cs + x
  {
    DivStep(k, g.cs, x);
    DivDiv(k, g.cs, g.L2Size());
    DivDiv(k + x, g.cs, g.L2Size());
  }

  lemma GuestClusterUnique(g: Geometry, k: nat, k': nat)
    requires Mapped(g, L1Index(g, k), L2Index(g, k), k')
    ensures k' / g.cs == k / g.cs && (k' % g.cs == k % g.cs ==> k' == k)
  {
    DivDiv(k, g.cs, g.L2Size());
    DivDiv(k', g.cs, g.L2Size());
    DivEqual(k' / g.cs, k / g.cs, g.L2Size());
    if k' % g.cs == k % g.cs {
      DivEqual(k', k, g.cs);
    }
  }

  /** Sectors n of a data cluster from index `at` on, decrypted as guest sectors k, k+1, ... */
  function Decrypted(g: Geometry, d: Disk, c: nat, at: nat, k: nat, n: nat): (r: seq<Sector>)
    ensures |r| == n
  {
    seq(n, x requires 0 <= x < n => g.dec(k + x, SectorAt(d, c, at + x)))
  }

  /** Sectors encrypted as guest sectors k, k+1, ... */
  function Encrypted(g: Geometry, k: nat, buf: seq<Sector>): (r: seq<Sector>)
    ensures |r| == |buf|
  {
    seq(|buf|, x requires 0 <= x < |buf| => g.enc(k + x, buf[x]))
  }

  /** The backing disk's sectors k, k+1, ..., zeros past its end (backing_read1). */
  function BackingRead(g: Geometry, k: nat, n: nat): (r: seq<Sector>)
    ensures |r| == n
  {
    seq(n, x requires 0 <= x < n => Backing(g, k + x))
  }

  /** `src` written over `dst` from index `at` on. */
  function Splice(dst: seq<Sector>, at: nat, src: seq<Sector>): (r: seq<Sector>)
    requires at + |src| <= |dst|
    ensures |r| == |dst|
    ensures forall x :: 0 <= x < |dst| ==> r[x] == if at <= x < at + |src| then src[x - at] else dst[x]
  {
    dst[..at] + src + dst[at + |src|..]
  }

  /** The sectors a cluster holds when it is taken over for data; what it held before is never read back. */
  function Scrap(g: Geometry, d: Disk, c: nat): (r: seq<Sector>)
    ensures |r| == g.cs
  {
    if c in d && d[c].Data? && |d[c].sectors| == g.cs then d[c].sectors else seq(g.cs, _ => ZeroSector())
  }

  /** buf is what guest sectors k, k+1, ... read as. */
  ghost predicate Reads(g: Geometry, d: Disk, l1: seq<Entry>, k: nat, buf: seq<Sector>) {
    forall y: nat :: k <= y < k + |buf| ==> Look(g, d, l1, y) == buf[y - k]
  }

  /** One guest cluster's part of a read: n sectors from k on, none crossing into the next guest cluster. */
  lemma ReadChunk(g: Geometry, d: Disk, l1: seq<Entry>, k: nat, n: nat)
    requires k % g.cs + n <= g.cs
    ensures var c := EntryOf(g, d, l1, k).cluster;
      Reads(g, d, l1, k, if c == 0 then BackingRead(g, k, n) else Decrypted(g, d, c, k % g.cs, k, n))
  {
    forall y: nat | k <= y < k + n
      ensures EntryOf(g, d, l1, y) == EntryOf(g, d, l1, k) && y % g.cs == k % g.cs + (y - k)
    {
      SameGuestCluster(g, k, y - k);
    }
  }

  lemma ReadsAppend(g: Geometry, d: Disk, l1: seq<Entry>, k: nat, buf: seq<Sector>, part: seq<Sector>)
    requires Reads(g, d, l1, k, buf) && Reads(g, d, l1, k + |buf|, part)
    ensures Reads(g, d, l1, k, buf + part)
  {
  }

  /** Sectors k to k + n - 1 all lie behind L1 entry i. */
  ghost predicate Behind(g: Geometry, i: nat, k: nat, n: nat) {
    forall y: nat :: k <= y < k + n ==> L1Index(g, y) == i
  }
}

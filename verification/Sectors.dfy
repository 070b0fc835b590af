/** encrypt_sectors: each sector is encrypted on its own, under a vector made of its number. */
module Sectors {
  import opened Arith
  import opened AesField
  import opened AesCipher
  import opened AesCode
  import opened Qcow2Format
  import opened Cbc

  function Pow256(i: nat): nat { if i == 0 then 1 else 256 * Pow256(i - 1) }

  lemma Pow256Positive(i: nat)
    ensures Pow256(i) > 0
  {
  }

  /** The 64-bit sector number in little-endian order, then zeros. */
  function Vector(k: nat): (r: seq<Byte>)
    ensures |r| == BLOCK
  {
    seq(BLOCK, i requires 0 <= i < BLOCK => if i < 8 then Pow256Positive(i); (k / Pow256(i) % 256) as Byte else 0)
  }

  /** The number that the first n of these bytes stand for, lowest byte first. */
  function LittleEndian(b: seq<nat>, n: nat): nat
    requires n <= |b|
  {
    if n == 0 then 0 else LittleEndian(b, n - 1) + b[n - 1] * Pow256(n - 1)
  }

  /** The vector is the sector number, as far as 64 bits go, in little-endian order, and zeros. */
  lemma VectorIs(k: nat) returns (b: seq<nat>)
    ensures |b| == 8 && forall i :: 0 <= i < 8 ==> b[i] < 256 && Vector(k)[i] == b[i] as Byte
    ensures LittleEndian(b, 8) == k % 0x1_0000_0000_0000_0000
    ensures forall i :: 8 <= i < BLOCK ==> Vector(k)[i] == 0
  {
    b := seq(8, i requires 0 <= i < 8 => Pow256Positive(i); k / Pow256(i) % 256);
    forall i: nat | i < 8 ensures Pow256(i) > 0 && b[i] == k / Pow256(i) % 256 {
      Pow256Positive(i);
    }
    LowBytes(k, b, 8);
    assert Pow256(8) == 0x1_0000_0000_0000_0000 by {
      assert Pow256(4) == 0x1_0000_0000;
    }
  }

  lemma {:induction false} LowBytes(k: nat, b: seq<nat>, n: nat)
    requires n <= 8 == |b| && forall i: nat :: i < 8 ==> Pow256(i) > 0 && b[i] == k / Pow256(i) % 256
    ensures Pow256(n) > 0 && LittleEndian(b, n) == k % Pow256(n)
  {
    Pow256Positive(n);
    if n > 0 {
      LowBytes(k, b, n - 1);
      assert b[n - 1] == k / Pow256(n - 1) % 256;
      ModStep(k, Pow256(n - 1));
    }
  }

  lemma ModStep(k: nat, p: nat)
    requires p > 0
    ensures k % (256 * p) == k % p + k / p % 256 * p
  {
    var q := k / p;
    assert k == p * q + k % p;
    assert q == 256 * (q / 256) + q % 256;
    var rest := k % p + q % 256 * p;
    MulMono(q % 256 + 1, 256, p);
    assert k == (256 * p) * (q / 256) + rest;
    DivUnique(k, 256 * p, q / 256, rest);
  }

  ghost function CryptSector(c: BlockCipher, k: nat, x: seq<Byte>, enc: bool): (r: seq<Byte>)
    requires c.Valid() && |x| == SECTOR
    ensures |r| == SECTOR
  {
    Crypted(c, Vector(k), x, enc)
  }

  /** Sectors k, k + 1, ... of the buffer, one by one. */
  ghost function CryptRun(c: BlockCipher, k: nat, x: seq<Byte>, enc: bool): (r: seq<Byte>)
    requires c.Valid() && |x| % SECTOR == 0
    ensures |r| == |x|
    decreases |x|
  {
    if x == [] then [] else CryptSector(c, k, x[..SECTOR], enc) + CryptRun(c, k + 1, x[SECTOR..], enc)
  }

  /** In place. */
  method EncryptSectors(c: BlockCipher, k: nat, a: array<Byte>, n: nat, enc: bool)
    requires c.Valid() && a.Length == SECTOR * n
    modifies a
    ensures a[..] == CryptRun(c, k, old(a[..]), enc)
  {
    hide Crypted, CryptRun, Vector;
    ghost var x := a[..];
    var i := 0;
    while i < n
      invariant i <= n && a.Length == SECTOR * n && a[SECTOR * i..] == x[SECTOR * i..]
      invariant a[..SECTOR * i] + CryptRun(c, k + i, x[SECTOR * i..], enc) == CryptRun(c, k, x, enc)
    {
      ghost var now := a[..];
      CbcInPlace(c, a, SECTOR * i, SECTOR, Vector(k + i), enc);
      RunStep(c, k, x, now, a[..], i, n, enc);
      i := i + 1;
    }
    RunEnd(c, k + n, x[SECTOR * n..], a[..], n, enc);
  }

  lemma RunEnd(c: BlockCipher, k: nat, rest: seq<Byte>, after: seq<Byte>, n: nat, enc: bool)
    requires c.Valid() && rest == [] && |after| == SECTOR * n
    ensures after[..SECTOR * n] + CryptRun(c, k, rest, enc) == after
  {
  }

  lemma RunStep(c: BlockCipher, k: nat, x: seq<Byte>, now: seq<Byte>, after: seq<Byte>, i: nat, n: nat, enc: bool)
    requires c.Valid() && i < n && |x| == |now| == SECTOR * n && now[SECTOR * i..] == x[SECTOR * i..]
    requires now[..SECTOR * i] + CryptRun(c, k + i, x[SECTOR * i..], enc) == CryptRun(c, k, x, enc)
    requires after == now[..SECTOR * i]
      + Crypted(c, Vector(k + i), now[SECTOR * i..SECTOR * i + SECTOR], enc) + now[SECTOR * i + SECTOR..]
    ensures |after| == SECTOR * n && after[SECTOR * (i + 1)..] == x[SECTOR * (i + 1)..]
    ensures after[..SECTOR * (i + 1)] + CryptRun(c, k + (i + 1), x[SECTOR * (i + 1)..], enc) == CryptRun(c, k, x, enc)
  {
    hide Crypted, Vector;
    var p := SECTOR * i;
    var rest := x[p..];
    var y := Crypted(c, Vector(k + i), now[p..p + SECTOR], enc);
    assert now[p..][..SECTOR] == now[p..p + SECTOR];
    assert rest[SECTOR..] == x[p + SECTOR..] && now[p..][SECTOR..] == now[p + SECTOR..];
    assert CryptRun(c, k + i, rest, enc) == y + CryptRun(c, k + i + 1, x[p + SECTOR..], enc);
    assert after[..p + SECTOR] == now[..p] + y;
    Regroup(now[..p], y, CryptRun(c, k + i + 1, x[p + SECTOR..], enc));
  }

  // ---------- Any part of what was written reads back ----------

  lemma SectorRoundTrip(c: BlockCipher, k: nat, x: seq<Byte>)
    requires c.Valid() && |x| == SECTOR
    ensures CryptSector(c, k, CryptSector(c, k, x, true), false) == x
  {
    DecryptedEncrypted(c, Vector(k), x);
  }

  /** A run of sectors out of a longer one is encrypted as on its own. */
  lemma {:induction false} SubRun(c: BlockCipher, k: nat, x: seq<Byte>, i: nat, n: nat, enc: bool)
    requires c.Valid() && |x| % SECTOR == 0 && SECTOR * i + SECTOR * n <= |x|
    ensures CryptRun(c, k, x, enc)[SECTOR * i..SECTOR * i + SECTOR * n]
      == CryptRun(c, k + i, x[SECTOR * i..SECTOR * i + SECTOR * n], enc)
    decreases i + n
  {
    hide CryptSector;
    if i > 0 {
      var p, q := SECTOR * (i - 1), SECTOR * n;
      var y, back := CryptRun(c, k, x, enc), x[SECTOR..];
      SubRun(c, k + 1, back, i - 1, n, enc);
      assert back[p..p + q] == x[p + SECTOR..p + SECTOR + q];
      assert y[p + SECTOR..p + SECTOR + q] == CryptRun(c, k + 1, back, enc)[p..p + q];
    } else if n > 0 {
      var q := SECTOR * (n - 1);
      var y, back := CryptRun(c, k, x, enc), x[SECTOR..];
      var part := x[..q + SECTOR];
      SubRun(c, k + 1, back, 0, n - 1, enc);
      assert part[..SECTOR] == x[..SECTOR] && part[SECTOR..] == back[..q];
      assert y[..q + SECTOR] == CryptSector(c, k, x[..SECTOR], enc) + CryptRun(c, k + 1, back, enc)[..q];
    }
  }

  lemma {:induction false} RunRoundTrip(c: BlockCipher, k: nat, x: seq<Byte>)
    requires c.Valid() && |x| % SECTOR == 0
    ensures CryptRun(c, k, CryptRun(c, k, x, true), false) == x
    decreases |x|
  {
    hide CryptSector;
    if x != [] {
      var y := CryptRun(c, k, x, true);
      var first := CryptSector(c, k, x[..SECTOR], true);
      assert y[..SECTOR] == first && y[SECTOR..] == CryptRun(c, k + 1, x[SECTOR..], true);
      SectorRoundTrip(c, k, x[..SECTOR]);
      RunRoundTrip(c, k + 1, x[SECTOR..]);
    }
  }

  /** However the sectors were batched when written, any run of them decrypts to what was written. */
  lemma PartRoundTrip(c: BlockCipher, k: nat, x: seq<Byte>, i: nat, n: nat)
    requires c.Valid() && |x| % SECTOR == 0 && SECTOR * i + SECTOR * n <= |x|
    ensures var a, b := SECTOR * i, SECTOR * i + SECTOR * n;
      CryptRun(c, k + i, CryptRun(c, k, x, true)[a..b], false) == x[a..b]
  {
    hide CryptRun;
    SubRun(c, k, x, i, n, true);
    RunRoundTrip(c, k + i, x[SECTOR * i..SECTOR * i + SECTOR * n]);
  }

  // ---------- An encrypted image ----------

  /** AES under one key schedule. */
  function Aes(sb: SBox, keys: seq<State>): BlockCipher
    requires |keys| >= 2
  {
    BlockCipher(x => if |x| == BLOCK then BlockBytes(Cipher(sb, keys, Block(x))) else x,
                x => if |x| == BLOCK then BlockBytes(InvCipher(sb, InvKeys(keys), Block(x))) else x)
  }

  lemma AesValid(sb: SBox, keys: seq<State>)
    requires sb.Valid() && |keys| >= 2
    ensures Aes(sb, keys).Valid()
  {
    hide Cipher, InvCipher, InvKeys;
    var c := Aes(sb, keys);
    forall x: seq<Byte> | |x| == BLOCK ensures |c.e(x)| == BLOCK && c.d(c.e(x)) == x {
      InvCipherCipher(sb, keys, Block(x));
      BytesOfBlock(x);
    }
  }

  /** The geometry of an image encrypted with that cipher. */
  ghost function EncryptedGeometry(cs: Pos, backing: seq<Sector>, c: BlockCipher): Geometry
    requires c.Valid()
  {
    Geometry(cs, backing,
             (k: nat, x: Sector) => if |x| == SECTOR then CryptSector(c, k, x, true) else x,
             (k: nat, x: Sector) => if |x| == SECTOR then CryptSector(c, k, x, false) else x)
  }

  /** An image encrypted with AES satisfies what the image engine asks of a sector cipher. */
  lemma EncryptedValid(cs: Pos, backing: seq<Sector>, c: BlockCipher)
    requires c.Valid()
    ensures EncryptedGeometry(cs, backing, c).Valid()
  {
    hide CryptSector;
    var g := EncryptedGeometry(cs, backing, c);
    forall k: nat, x: Sector ensures g.dec(k, g.enc(k, x)) == x {
      if |x| == SECTOR {
        SectorRoundTrip(c, k, x);
      }
    }
  }
}

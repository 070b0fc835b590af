/** AES_cbc_encrypt, over any block cipher that can be undone. */
module Cbc {
  import opened AesField

  const BLOCK := 16
  const SECTOR := 512

  datatype BlockCipher = BlockCipher(e: seq<Byte> -> seq<Byte>, d: seq<Byte> -> seq<Byte>)
  {
    ghost predicate Valid() {
      && (forall x: seq<Byte> {:trigger d(x)} :: |x| == BLOCK ==> |d(x)| == BLOCK)
      && (forall x: seq<Byte> {:trigger e(x)} :: |x| == BLOCK ==> |e(x)| == BLOCK && d(e(x)) == x)
    }
  }

  /** The first |x| bytes of y added to x. */
  function XorBytes(x: seq<Byte>, y: seq<Byte>): (r: seq<Byte>)
    requires |x| <= |y|
    ensures |r| == |x|
  {
    seq(|x|, i requires 0 <= i < |x| => Plus(x[i], y[i]))
  }

  lemma XorBytesTwice(x: seq<Byte>, y: seq<Byte>)
    requires |x| <= |y|
    ensures XorBytes(XorBytes(x, y), y) == x
  {
    forall i | 0 <= i < |x| ensures XorBytes(XorBytes(x, y), y)[i] == x[i] {
      PlusTwice(x[i], y[i]);
    }
  }

  lemma PlusTwice(x: Byte, y: Byte)
    ensures Plus(Plus(x, y), y) == x
  {
  }

  // ---------- Section 6.2 of NIST SP 800-38A ----------

  /** What goes into the cipher for the next block: a short one is filled up with the vector's own bytes. */
  function Mixed(x: seq<Byte>, iv: seq<Byte>): (r: seq<Byte>)
    requires |x| <= BLOCK == |iv|
    ensures |r| == BLOCK
  {
    XorBytes(x, iv) + iv[|x|..]
  }

  /** n rounded up to whole blocks. */
  function Whole(n: nat): nat { (n + BLOCK - 1) / BLOCK * BLOCK }

  lemma WholeIs(n: nat)
    ensures n <= Whole(n) < n + BLOCK && Whole(n) % BLOCK == 0
  {
  }

  ghost function Encrypted(c: BlockCipher, iv: seq<Byte>, x: seq<Byte>): (r: seq<Byte>)
    requires c.Valid() && |iv| == BLOCK
    ensures |r| == Whole(|x|)
    decreases |x|
  {
    if x == [] then []
    else if |x| <= BLOCK then c.e(Mixed(x, iv))
    else
      var y := c.e(Mixed(x[..BLOCK], iv));
      y + Encrypted(c, y, x[BLOCK..])
  }

  /** The first n bytes of the plaintext of y. */
  ghost function Decrypted(c: BlockCipher, iv: seq<Byte>, y: seq<Byte>, n: nat): (r: seq<Byte>)
    requires c.Valid() && |iv| == BLOCK && Whole(n) <= |y|
    ensures |r| == n
    decreases n
  {
    if n == 0 then []
    else if n <= BLOCK then XorBytes(c.d(y[..BLOCK])[..n], iv)
    else XorBytes(c.d(y[..BLOCK]), iv) + Decrypted(c, y[..BLOCK], y[BLOCK..], n - BLOCK)
  }

  lemma UndoMixed(x: seq<Byte>, iv: seq<Byte>)
    requires |x| <= BLOCK == |iv|
    ensures XorBytes(Mixed(x, iv)[..|x|], iv) == x
  {
    assert Mixed(x, iv)[..|x|] == XorBytes(x, iv);
    XorBytesTwice(x, iv);
  }

  // ---------- Block by block ----------

  lemma WholeStep(n: nat)
    ensures Whole(0) == 0 && (0 < n <= BLOCK ==> Whole(n) == BLOCK)
    ensures (n >= BLOCK ==> Whole(n) == BLOCK + Whole(n - BLOCK))
  {
  }

  lemma CipherBlock(c: BlockCipher, x: seq<Byte>)
    requires c.Valid() && |x| == BLOCK
    ensures |c.e(x)| == BLOCK && |c.d(x)| == BLOCK && c.d(c.e(x)) == x
  {
  }

  lemma EncryptedStep(c: BlockCipher, iv: seq<Byte>, x: seq<Byte>)
    requires c.Valid() && |iv| == BLOCK && |x| >= BLOCK
    ensures var y := c.e(Mixed(x[..BLOCK], iv)); |y| == BLOCK && Encrypted(c, iv, x) == y + Encrypted(c, y, x[BLOCK..])
  {
    hide XorBytes, Mixed, Whole;
    if |x| == BLOCK {
      assert x[..BLOCK] == x;
    }
  }

  lemma EncryptedTail(c: BlockCipher, iv: seq<Byte>, x: seq<Byte>)
    requires c.Valid() && |iv| == BLOCK && |x| < BLOCK
    ensures Encrypted(c, iv, x) == if x == [] then [] else c.e(Mixed(x, iv))
  {
  }

  lemma DecryptedStep(c: BlockCipher, iv: seq<Byte>, y: seq<Byte>, n: nat)
    requires c.Valid() && |iv| == BLOCK && n >= BLOCK && Whole(n) <= |y|
    ensures |y| >= BLOCK && Whole(n - BLOCK) <= |y[BLOCK..]|
    ensures Decrypted(c, iv, y, n) == XorBytes(c.d(y[..BLOCK]), iv) + Decrypted(c, y[..BLOCK], y[BLOCK..], n - BLOCK)
  {
    hide XorBytes, Whole;
    WholeStep(n);
    if n == BLOCK {
      var x := c.d(y[..BLOCK]);
      assert x[..BLOCK] == x;
    }
  }

  lemma DecryptedTail(c: BlockCipher, iv: seq<Byte>, y: seq<Byte>, n: nat)
    requires c.Valid() && |iv| == BLOCK && n < BLOCK && Whole(n) <= |y|
    ensures n > 0 ==> |y| >= BLOCK && |c.d(y[..BLOCK])| == BLOCK
    ensures Decrypted(c, iv, y, n) == if n == 0 then [] else XorBytes(c.d(y[..BLOCK])[..n], iv)
  {
  }

  lemma RoundTripTail(c: BlockCipher, iv: seq<Byte>, x: seq<Byte>)
    requires c.Valid() && |iv| == BLOCK && |x| < BLOCK
    ensures Decrypted(c, iv, Encrypted(c, iv, x), |x|) == x
  {
    hide XorBytes, Mixed, Decrypted, Encrypted, Whole;
    WholeStep(|x|);
    EncryptedTail(c, iv, x);
    var y := Encrypted(c, iv, x);
    DecryptedTail(c, iv, y, |x|);
    if x != [] {
      CipherBlock(c, Mixed(x, iv));
      assert y[..BLOCK] == y;
      UndoMixed(x, iv);
    }
  }

  lemma RoundTripBlock(c: BlockCipher, iv: seq<Byte>, x: seq<Byte>)
    requires c.Valid() && |iv| == BLOCK == |x|
    ensures XorBytes(c.d(c.e(Mixed(x, iv))), iv) == x
  {
    hide XorBytes;
    CipherBlock(c, Mixed(x, iv));
    UndoMixed(x, iv);
    assert Mixed(x, iv)[..BLOCK] == Mixed(x, iv);
  }

  /** Decryption undoes encryption, for every length. */
  lemma {:induction false} DecryptedEncrypted(c: BlockCipher, iv: seq<Byte>, x: seq<Byte>)
    requires c.Valid() && |iv| == BLOCK
    ensures Decrypted(c, iv, Encrypted(c, iv, x), |x|) == x
    decreases |x|
  {
    hide XorBytes, Mixed, Decrypted, Encrypted, Whole;
    if |x| < BLOCK {
      RoundTripTail(c, iv, x);
    } else {
      var front, back := x[..BLOCK], x[BLOCK..];
      var first := c.e(Mixed(front, iv));
      EncryptedStep(c, iv, x);
      var y := Encrypted(c, iv, x);
      DecryptedStep(c, iv, y, |x|);
      assert y[..BLOCK] == first && y[BLOCK..] == Encrypted(c, first, back);
      RoundTripBlock(c, iv, front);
      DecryptedEncrypted(c, first, back);
      assert x == front + back;
    }
  }

  /** Bytes of a short block that are missing count as zeros. */
  lemma MixedAt(x: seq<Byte>, iv: seq<Byte>, i: nat)
    requires |x| <= BLOCK == |iv| && i < BLOCK
    ensures Mixed(x, iv)[i] == if i < |x| then x[i] ^ iv[i] else iv[i]
  {
  }

  /** Block i of the plaintext, the last one perhaps short. */
  function BlockOf(x: seq<Byte>, i: nat): (r: seq<Byte>)
    requires BLOCK * i < |x|
    ensures |r| <= BLOCK
  {
    if |x| < BLOCK * i + BLOCK then x[BLOCK * i..] else x[BLOCK * i..BLOCK * i + BLOCK]
  }

  /** Every block of ciphertext is made of its block of plaintext and the block of ciphertext before it. */
  lemma {:induction false} ChainAt(c: BlockCipher, iv: seq<Byte>, x: seq<Byte>, i: nat)
    requires c.Valid() && |iv| == BLOCK && BLOCK * i < |x|
    ensures var y := Encrypted(c, iv, x);
      && BLOCK * i + BLOCK <= |y|
      && y[BLOCK * i..BLOCK * i + BLOCK]
        == c.e(Mixed(BlockOf(x, i), if i == 0 then iv else y[BLOCK * i - BLOCK..BLOCK * i]))
    decreases i
  {
    hide Mixed, Whole, Encrypted, BlockOf;
    WholeIs(|x|);
    var y := Encrypted(c, iv, x);
    FirstBlock(c, iv, x);
    if i > 0 {
      var first, back := y[..BLOCK], x[BLOCK..];
      var z := Encrypted(c, first, back);
      ChainAt(c, first, back, i - 1);
      BlockBehind(x, i);
      Behind(first, z, BLOCK * (i - 1), BLOCK * i);
      if i > 1 {
        Behind(first, z, BLOCK * (i - 2), BLOCK * (i - 1));
      }
    }
  }

  lemma FirstBlock(c: BlockCipher, iv: seq<Byte>, x: seq<Byte>)
    requires c.Valid() && |iv| == BLOCK && x != []
    ensures var y := Encrypted(c, iv, x);
      && |y| >= BLOCK && y[..BLOCK] == c.e(Mixed(BlockOf(x, 0), iv))
      && (|x| > BLOCK ==> y == y[..BLOCK] + Encrypted(c, y[..BLOCK], x[BLOCK..]))
  {
    hide Mixed;
    WholeIs(|x|);
    assert |x| <= BLOCK ==> BlockOf(x, 0) == x;
  }

  lemma BlockBehind(x: seq<Byte>, i: nat)
    requires i > 0 && BLOCK * i < |x|
    ensures BlockOf(x[BLOCK..], i - 1) == BlockOf(x, i)
  {
  }

  lemma Behind(a: seq<Byte>, z: seq<Byte>, p: nat, q: nat)
    requires |a| == BLOCK && p <= q <= |z|
    ensures (a + z)[BLOCK + p..BLOCK + q] == z[p..q]
  {
  }

  /** The vector after encrypting: the last block of ciphertext. */
  function LastBlock(iv: seq<Byte>, y: seq<Byte>): seq<Byte> {
    if |y| < BLOCK then iv else y[|y| - BLOCK..]
  }

  // ---------- AES_cbc_encrypt ----------

  method CbcEncrypt(c: BlockCipher, inp: seq<Byte>, iv: seq<Byte>) returns (out: seq<Byte>, ivec: seq<Byte>)
    requires c.Valid() && |iv| == BLOCK
    ensures out == Encrypted(c, iv, inp) && ivec == LastBlock(iv, out)
  {
    hide XorBytes, Mixed, Encrypted, Whole;
    out, ivec := [], iv;
    var rest := inp;
    while |rest| >= BLOCK
      invariant |ivec| == BLOCK && ivec == LastBlock(iv, out)
      invariant out + Encrypted(c, ivec, rest) == Encrypted(c, iv, inp)
    {
      EncryptedStep(c, ivec, rest);
      var y := c.e(Mixed(rest[..BLOCK], ivec));
      rest := rest[BLOCK..];
      assert out + (y + Encrypted(c, y, rest)) == (out + y) + Encrypted(c, y, rest);
      out, ivec := out + y, y;
    }
    EncryptedTail(c, ivec, rest);
    if rest != [] {
      CipherBlock(c, Mixed(rest, ivec));
      ivec := c.e(Mixed(rest, ivec));
      out := out + ivec;
    }
  }

  /** Decrypting a length that is no multiple of the block leaves the last block, decrypted but not
      yet mixed with the vector, as the vector. */
  method CbcDecrypt(c: BlockCipher, inp: seq<Byte>, n: nat, iv: seq<Byte>) returns (out: seq<Byte>, ivec: seq<Byte>)
    requires c.Valid() && |iv| == BLOCK && Whole(n) <= |inp|
    ensures out == Decrypted(c, iv, inp, n)
    ensures n % BLOCK == 0 ==> ivec == LastBlock(iv, inp[..n])
    ensures n % BLOCK != 0 ==> ivec == c.d(inp[n - n % BLOCK..n - n % BLOCK + BLOCK])
  {
    hide XorBytes, Decrypted, Whole, LastBlock;
    var rest;
    out, ivec, rest := DecryptBlocks(c, inp, n, iv);
    var len := n % BLOCK;
    DecryptedTail(c, ivec, rest, len);
    if len > 0 {
      assert rest[..BLOCK] == inp[n - len..n - len + BLOCK];
      var tmp := c.d(rest[..BLOCK]);
      out, ivec := out + XorBytes(tmp[..len], ivec), tmp;
    } else {
      assert out + [] == out;
    }
  }

  /** The whole blocks among the first n bytes. */
  method DecryptBlocks(c: BlockCipher, inp: seq<Byte>, n: nat, iv: seq<Byte>)
    returns (out: seq<Byte>, ivec: seq<Byte>, rest: seq<Byte>)
    requires c.Valid() && |iv| == BLOCK && Whole(n) <= |inp|
    ensures |ivec| == BLOCK && n - n % BLOCK <= |inp| && rest == inp[n - n % BLOCK..] && Whole(n % BLOCK) <= |rest|
    ensures ivec == LastBlock(iv, inp[..n - n % BLOCK])
    ensures out + Decrypted(c, ivec, rest, n % BLOCK) == Decrypted(c, iv, inp, n)
  {
    hide XorBytes, Decrypted, Whole, LastBlock;
    out, ivec, rest := [], iv, inp;
    var p := 0;
    LastNone(iv, inp);
    while n - p >= BLOCK
      invariant p <= n && p % BLOCK == 0 && p <= |inp| && rest == inp[p..] && |ivec| == BLOCK
      invariant Whole(n - p) <= |rest| && ivec == LastBlock(iv, inp[..p])
      invariant out + Decrypted(c, ivec, rest, n - p) == Decrypted(c, iv, inp, n)
    {
      DecryptedStep(c, ivec, rest, n - p);
      var tmp := rest[..BLOCK];
      CipherBlock(c, tmp);
      var x := XorBytes(c.d(tmp), ivec);
      LastNext(iv, inp, p);
      rest, p := rest[BLOCK..], p + BLOCK;
      Regroup(out, x, Decrypted(c, tmp, rest, n - p));
      out, ivec := out + x, tmp;
    }
  }

  lemma Regroup(x: seq<Byte>, y: seq<Byte>, z: seq<Byte>)
    ensures x + (y + z) == (x + y) + z
  {
  }

  lemma LastNone(iv: seq<Byte>, y: seq<Byte>)
    ensures LastBlock(iv, y[..0]) == iv && y[0..] == y
  {
  }

  lemma LastNext(iv: seq<Byte>, y: seq<Byte>, p: nat)
    requires p + BLOCK <= |y|
    ensures LastBlock(iv, y[..p + BLOCK]) == y[p..][..BLOCK] && y[p..][BLOCK..] == y[p + BLOCK..]
  {
    assert y[..p + BLOCK][p..] == y[p..][..BLOCK];
  }

  // ---------- In place ----------

  method PutBytes(a: array<Byte>, at: nat, b: seq<Byte>)
    requires at + |b| <= a.Length
    modifies a
    ensures a[..] == old(a[..at]) + b + old(a[at + |b|..])
  {
    var i := 0;
    while i < |b|
      invariant i <= |b| && a[..] == old(a[..at]) + b[..i] + old(a[at + i..])
    {
      a[at + i] := b[i];
      i := i + 1;
    }
  }

  ghost function Crypted(c: BlockCipher, iv: seq<Byte>, x: seq<Byte>, enc: bool): (r: seq<Byte>)
    requires c.Valid() && |iv| == BLOCK && |x| % BLOCK == 0
    ensures |r| == |x|
  {
    if enc then Encrypted(c, iv, x) else Decrypted(c, iv, x, |x|)
  }

  /** One block and the vector for the next. */
  function CryptBlock(c: BlockCipher, x: seq<Byte>, iv: seq<Byte>, enc: bool): seq<Byte>
    requires |x| == BLOCK == |iv| && |c.d(x)| == BLOCK
  {
    if enc then c.e(Mixed(x, iv)) else XorBytes(c.d(x), iv)
  }

  lemma CryptedStep(c: BlockCipher, iv: seq<Byte>, x: seq<Byte>, enc: bool)
    requires c.Valid() && |iv| == BLOCK && |x| >= BLOCK && |x| % BLOCK == 0
    ensures var b := x[..BLOCK];
      && |c.d(b)| == BLOCK && |CryptBlock(c, b, iv, enc)| == BLOCK
      && Crypted(c, iv, x, enc)
        == CryptBlock(c, b, iv, enc) + Crypted(c, if enc then CryptBlock(c, b, iv, enc) else b, x[BLOCK..], enc)
  {
    hide XorBytes, Mixed, Encrypted, Decrypted, Whole;
    CipherBlock(c, x[..BLOCK]);
    CipherBlock(c, Mixed(x[..BLOCK], iv));
    WholeSelf(|x|);
    if enc {
      EncryptedStep(c, iv, x);
    } else {
      DecryptedStep(c, iv, x, |x|);
    }
  }

  lemma WholeSelf(n: nat)
    requires n % BLOCK == 0
    ensures Whole(n) == n
  {
  }

  /** The first p of len bytes at `at` are done, the others as before. */
  ghost predicate PartDone(c: BlockCipher, iv: seq<Byte>, ivec: seq<Byte>, enc: bool,
      before: seq<Byte>, now: seq<Byte>, at: nat, p: nat, len: nat)
    requires c.Valid() && |iv| == BLOCK && |ivec| == BLOCK && p % BLOCK == 0 && len % BLOCK == 0
  {
    && |now| == |before| && p <= len && at + len <= |before|
    && now[..at] == before[..at] && now[at + p..] == before[at + p..]
    && now[at..at + p] + Crypted(c, ivec, before[at + p..at + len], enc) == Crypted(c, iv, before[at..at + len], enc)
  }

  /** in == out: the length is a multiple of the block. */
  method CbcInPlace(c: BlockCipher, a: array<Byte>, at: nat, len: nat, iv: seq<Byte>, enc: bool)
    requires c.Valid() && |iv| == BLOCK && len % BLOCK == 0 && at + len <= a.Length
    modifies a
    ensures a[..] == old(a[..at]) + Crypted(c, iv, old(a[at..at + len]), enc) + old(a[at + len..])
  {
    hide XorBytes, Mixed, Crypted, CryptBlock, PartDone;
    ghost var before := a[..];
    var ivec, p := iv, 0;
    PartStart(c, iv, enc, before, at, len);
    while p < len
      invariant p <= len && p % BLOCK == 0 && |ivec| == BLOCK && a.Length == |before|
      invariant PartDone(c, iv, ivec, enc, before, a[..], at, p, len)
    {
      ghost var now := a[..];
      var b := a[at + p..at + p + BLOCK];
      BlockLength(c, b, ivec, enc);
      var y := CryptBlock(c, b, ivec, enc);
      PutBytes(a, at + p, y);
      PartStep(c, iv, ivec, enc, before, now, a[..], at, p, len, y);
      ivec := if enc then y else b;
      p := p + BLOCK;
    }
    PartEnd(c, iv, ivec, enc, before, a[..], at, len);
  }

  lemma BlockLength(c: BlockCipher, b: seq<Byte>, iv: seq<Byte>, enc: bool)
    requires c.Valid() && |iv| == BLOCK && |b| == BLOCK
    ensures |CryptBlock(c, b, iv, enc)| == BLOCK
  {
    assert b[..BLOCK] == b;
    CryptedStep(c, iv, b, enc);
  }

  lemma PartStart(c: BlockCipher, iv: seq<Byte>, enc: bool, before: seq<Byte>, at: nat, len: nat)
    requires c.Valid() && |iv| == BLOCK && at + len <= |before| && len % BLOCK == 0
    ensures PartDone(c, iv, iv, enc, before, before, at, 0, len)
  {
    hide XorBytes, Mixed, Crypted, CryptBlock;
  }

  lemma PartStep(c: BlockCipher, iv: seq<Byte>, ivec: seq<Byte>, enc: bool,
      before: seq<Byte>, now: seq<Byte>, after: seq<Byte>, at: nat, p: nat, len: nat, y: seq<Byte>)
    requires c.Valid() && |iv| == BLOCK && |ivec| == BLOCK && p % BLOCK == 0 && len % BLOCK == 0
    requires PartDone(c, iv, ivec, enc, before, now, at, p, len)
    requires p + BLOCK <= len && y == CryptBlock(c, now[at + p..at + p + BLOCK], ivec, enc)
    requires after == now[..at + p] + y + now[at + p + BLOCK..]
    ensures PartDone(c, iv, if enc then y else now[at + p..at + p + BLOCK], enc, before, after, at, p + BLOCK, len)
  {
    hide XorBytes, Mixed, Crypted, CryptBlock;
    var x := before[at + p..at + len];
    NextBlock(now, before, at, p, len);
    CryptedStep(c, ivec, x, enc);
    PutInPlace(now, after, at, p, y, before);
    var ivec' := if enc then y else now[at + p..at + p + BLOCK];
    JoinStep(now[at..at + p], y, Crypted(c, ivec', x[BLOCK..], enc), Crypted(c, ivec, x, enc),
      Crypted(c, iv, before[at..at + len], enc));
  }

  lemma PartEnd(c: BlockCipher, iv: seq<Byte>, ivec: seq<Byte>, enc: bool,
      before: seq<Byte>, now: seq<Byte>, at: nat, len: nat)
    requires c.Valid() && |iv| == BLOCK && |ivec| == BLOCK && len % BLOCK == 0
    requires PartDone(c, iv, ivec, enc, before, now, at, len, len)
    ensures now == before[..at] + Crypted(c, iv, before[at..at + len], enc) + before[at + len..]
  {
    assert Crypted(c, ivec, [], enc) == [];
    assert before[at + len..at + len] == [];
    assert now == now[..at] + now[at..at + len] + now[at + len..];
  }

  lemma NextBlock(now: seq<Byte>, before: seq<Byte>, at: nat, p: nat, len: nat)
    requires p + BLOCK <= len && at + len <= |now| == |before| && now[at + p..] == before[at + p..]
    ensures var x := before[at + p..at + len];
      now[at + p..at + p + BLOCK] == x[..BLOCK] && x[BLOCK..] == before[at + p + BLOCK..at + len]
  {
    assert now[at + p..][..BLOCK] == now[at + p..at + p + BLOCK];
    assert before[at + p..][..BLOCK] == before[at + p..at + p + BLOCK];
  }

  lemma JoinStep(l: seq<Byte>, y: seq<Byte>, r: seq<Byte>, t: seq<Byte>, whole: seq<Byte>)
    requires l + t == whole && t == y + r
    ensures (l + y) + r == whole
  {
  }

  lemma PutInPlace(now: seq<Byte>, after: seq<Byte>, at: nat, p: nat, y: seq<Byte>, before: seq<Byte>)
    requires |now| == |before| && at + p + |y| <= |now| && now[at + p..] == before[at + p..]
    requires after == now[..at + p] + y + now[at + p + |y|..]
    ensures |after| == |now| && after[..at] == now[..at] && after[at..at + p + |y|] == now[at..at + p] + y
    ensures after[at + p + |y|..] == before[at + p + |y|..]
  {
    assert before[at + p..][|y|..] == before[at + p + |y|..];
    assert now[at + p..][|y|..] == now[at + p + |y|..];
  }
}

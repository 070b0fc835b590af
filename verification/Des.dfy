/** d3des.c: the DES Feistel network, its bit-swap permutations and its key schedule. */
module Des {
  import opened AesField

  /** The permuted-choice and rotation tables, and the combined S-boxes and permutation SP1 to SP8. */
  datatype Tables = Tables(pc1: seq<nat>, pc2: seq<nat>, totrot: seq<nat>, sp: (nat, Word) -> Word)
  {
    predicate Valid() {
      && |pc1| == 56 && (forall j :: 0 <= j < 56 ==> pc1[j] < 64)
      && |pc2| == 48 && (forall j :: 0 <= j < 48 ==> pc2[j] < 56)
      && |totrot| == 16 && (forall j :: 0 <= j < 16 ==> totrot[j] <= 28)
    }
  }

  datatype Halves = Halves(l: Word, r: Word)
  datatype Key = Key(k0: Word, k1: Word)

  function Swap(h: Halves): Halves { Halves(h.r, h.l) }

  // ---------- The swaps of the initial and final permutations ----------

  function X4(h: Halves): Halves { var w := ((h.l >> 4) ^ h.r) & 0x0f0f_0f0f; Halves(h.l ^ (w << 4), h.r ^ w) }
  function X16(h: Halves): Halves { var w := ((h.l >> 16) ^ h.r) & 0x0000_ffff; Halves(h.l ^ (w << 16), h.r ^ w) }
  function X2(h: Halves): Halves { var w := ((h.l >> 2) ^ h.r) & 0x3333_3333; Halves(h.l ^ (w << 2), h.r ^ w) }
  function X8(h: Halves): Halves { var w := ((h.l >> 8) ^ h.r) & 0x00ff_00ff; Halves(h.l ^ (w << 8), h.r ^ w) }
  function OddBits(x: Word): Word { x & 0xaaaa_aaaa }
  function XA(h: Halves): Halves { var w := OddBits(XorW(h.l, h.r)); Halves(XorW(h.l, w), XorW(h.r, w)) }
  function RotL(x: Word): Word { (x << 1) | ((x >> 31) & 1) }
  function RotR(x: Word): Word { (x << 31) | (x >> 1) }

  lemma X4Twice(h: Halves)
    ensures X4(X4(h)) == h
  {
  }

  lemma X16Twice(h: Halves)
    ensures X16(X16(h)) == h
  {
  }

  lemma X2Twice(h: Halves)
    ensures X2(X2(h)) == h
  {
  }

  lemma X8Twice(h: Halves)
    ensures X8(X8(h)) == h
  {
  }

  lemma XATwice(h: Halves)
    ensures XA(XA(h)) == h
  {
    hide XorW, OddBits;
    var w := OddBits(XorW(h.l, h.r));
    XorWBoth(h.l, h.r, w);
    XorWTwice(h.l, w);
    XorWTwice(h.r, w);
  }

  lemma XorWTwice(x: Word, y: Word)
    ensures XorW(XorW(x, y), y) == x
  {
  }

  lemma XorWBoth(x: Word, y: Word, w: Word)
    ensures XorW(XorW(x, w), XorW(y, w)) == XorW(x, y)
  {
    assert (x ^ w) ^ (y ^ w) == x ^ y;
  }

  lemma RotUndo(x: Word)
    ensures RotR(RotL(x)) == x && RotL(RotR(x)) == x
  {
  }

  function RotLeft(h: Halves): Halves { Halves(RotL(h.l), h.r) }
  function RotRight(h: Halves): Halves { Halves(RotR(h.l), h.r) }

  lemma RotLeftRight(h: Halves)
    ensures RotLeft(RotRight(h)) == h && RotRight(RotLeft(h)) == h
  {
    hide RotL, RotR;
    RotUndo(h.l);
  }

  lemma SwapTwice(h: Halves)
    ensures Swap(Swap(h)) == h
  {
  }

  lemma XASwap(h: Halves)
    ensures XA(Swap(h)) == Swap(XA(h))
  {
    hide XorW, OddBits;
    XorWComm(h.l, h.r);
  }

  lemma XorWComm(x: Word, y: Word)
    ensures XorW(x, y) == XorW(y, x)
  {
  }

  /** The opening of desfunc; its second pair of swaps has the halves in the other order. */
  function Initial(h: Halves): Halves { RotLeft(Swap(XA(RotLeft(X8(X2(Swap(X16(X4(h))))))))) }

  /** The closing of desfunc, down to its output: the right half, then the left. */
  function Final(h: Halves): Halves { X4(X16(Swap(X2(X8(RotRight(Swap(XA(RotRight(Swap(h)))))))))) }

  /** The closing swaps undo the opening ones, with the halves exchanged. */
  lemma InitialFinal(h: Halves)
    ensures Initial(Final(h)) == Swap(h)
  {
    hide X4, X16, X2, X8, XA, RotLeft, RotRight, Swap;
    var x := RotRight(Swap(h));
    var v := RotRight(Swap(XA(x)));
    var u := Swap(X2(X8(v)));
    X4Twice(X16(u));
    X16Twice(u);
    SwapTwice(X2(X8(v)));
    X2Twice(X8(v));
    X8Twice(v);
    RotLeftRight(Swap(XA(x)));
    XASwap(XA(x));
    XATwice(x);
    SwapTwice(x);
    RotLeftRight(Swap(h));
  }

  lemma FinalInitial(h: Halves)
    ensures Final(Swap(Initial(h))) == h
  {
    hide X4, X16, X2, X8, XA, RotLeft, RotRight, Swap;
    var u := X16(X4(h));
    var v := X8(X2(Swap(u)));
    var y := XA(RotLeft(v));
    SwapTwice(RotLeft(Swap(y)));
    RotLeftRight(Swap(y));
    XASwap(y);
    XATwice(RotLeft(v));
    SwapTwice(RotLeft(v));
    RotLeftRight(v);
    X8Twice(X2(Swap(u)));
    X2Twice(Swap(u));
    SwapTwice(u);
    X16Twice(X4(h));
    X4Twice(h);
  }

  // ---------- The rounds ----------

  function Turn4(x: Word): Word { (x << 28) | (x >> 4) }

  // Six bits of a word, from the lowest byte to the highest.

  function Field0(w: Word): Word { w & 0x3f }
  function Field1(w: Word): Word { (w >> 8) & 0x3f }
  function Field2(w: Word): Word { (w >> 16) & 0x3f }
  function Field3(w: Word): Word { (w >> 24) & 0x3f }

  function Or8(a: Word, b: Word, c: Word, d: Word, e: Word, f: Word, g: Word, h: Word): Word {
    OrW(OrW(OrW(OrW(OrW(OrW(OrW(a, b), c), d), e), f), g), h)
  }

  /** What a round adds to the other half. */
  function F(t: Tables, x: Word, k: Key): Word {
    var work := XorW(Turn4(x), k.k0);
    var work2 := XorW(x, k.k1);
    Or8(t.sp(7, Field0(work)), t.sp(5, Field1(work)), t.sp(3, Field2(work)), t.sp(1, Field3(work)),
        t.sp(8, Field0(work2)), t.sp(6, Field1(work2)), t.sp(4, Field2(work2)), t.sp(2, Field3(work2)))
  }

  /** A Feistel round. */
  function Step(t: Tables, k: Key, h: Halves): Halves { Halves(h.r, XorW(h.l, F(t, h.r, k))) }

  function Rounds(t: Tables, keys: seq<Key>, h: Halves): Halves {
    if keys == [] then h else Step(t, keys[|keys| - 1], Rounds(t, keys[..|keys| - 1], h))
  }

  lemma StepUndone(t: Tables, k: Key, h: Halves)
    ensures Step(t, k, Swap(Step(t, k, h))) == Swap(h)
  {
    hide XorW, F;
    XorWTwice(h.l, F(t, h.r, k));
  }

  function Reverse(keys: seq<Key>): (r: seq<Key>)
    ensures |r| == |keys|
    ensures forall i :: 0 <= i < |keys| ==> r[i] == keys[|keys| - 1 - i]
  {
    if keys == [] then [] else [keys[|keys| - 1]] + Reverse(keys[..|keys| - 1])
  }

  lemma {:induction false} RoundsFrom(t: Tables, k: Key, keys: seq<Key>, h: Halves)
    ensures Rounds(t, [k] + keys, h) == Rounds(t, keys, Step(t, k, h))
  {
    hide Step;
    var all := [k] + keys;
    if keys == [] {
      assert all[..0] == [];
    } else {
      var n := |keys| - 1;
      assert all[..|all| - 1] == [k] + keys[..n];
      RoundsFrom(t, k, keys[..n], h);
    }
  }

  /** The rounds under the reversed keys take the result back, halves exchanged. */
  lemma {:induction false} RoundsUndone(t: Tables, keys: seq<Key>, h: Halves)
    ensures Rounds(t, Reverse(keys), Swap(Rounds(t, keys, h))) == Swap(h)
  {
    hide Step, Swap;
    if keys != [] {
      var n := |keys| - 1;
      var front, mid := keys[..n], Rounds(t, keys[..n], h);
      RoundsFrom(t, keys[n], Reverse(front), Swap(Rounds(t, keys, h)));
      StepUndone(t, keys[n], mid);
      RoundsUndone(t, front, h);
    }
  }

  function Cipher(t: Tables, keys: seq<Key>, h: Halves): Halves { Final(Rounds(t, keys, Initial(h))) }

  /** The reversed keys undo the cipher. */
  lemma CipherUndone(t: Tables, keys: seq<Key>, h: Halves)
    ensures Cipher(t, Reverse(keys), Cipher(t, keys, h)) == h
  {
    hide Initial, Final, Rounds, Swap;
    InitialFinal(Rounds(t, keys, Initial(h)));
    RoundsUndone(t, keys, Initial(h));
    FinalInitial(h);
  }

  // ---------- desfunc ----------

  function Keys(kn: seq<Word>): (r: seq<Key>)
    requires |kn| == 32
    ensures |r| == 16 && forall i :: 0 <= i < 16 ==> r[i] == Key(kn[2 * i], kn[2 * i + 1])
  {
    seq(16, i requires 0 <= i < 16 => Key(kn[2 * i], kn[2 * i + 1]))
  }

  method DesFunc(t: Tables, block: Halves, kn: seq<Word>) returns (out: Halves)
    requires |kn| == 32
    ensures out == Cipher(t, Keys(kn), block)
  {
    hide Initial, Final, F, XorW, Rounds;
    var h := Initial(block);
    ghost var keys, start := Keys(kn), h;
    NoRounds(t, keys, start);
    var left, right := h.l, h.r;
    var round := 0;
    while round < 8
      invariant round <= 8 && Halves(left, right) == Rounds(t, keys[..2 * round], start)
    {
      left := XorW(left, F(t, right, Key(kn[4 * round], kn[4 * round + 1])));
      right := XorW(right, F(t, left, Key(kn[4 * round + 2], kn[4 * round + 3])));
      TwoRounds(t, keys, start, 2 * round);
      round := round + 1;
    }
    assert keys[..16] == keys;
    out := Final(Halves(left, right));
  }

  lemma NoRounds(t: Tables, keys: seq<Key>, h: Halves)
    ensures Rounds(t, keys[..0], h) == h
  {
  }

  lemma TwoRounds(t: Tables, keys: seq<Key>, h: Halves, n: nat)
    requires n + 2 <= |keys|
    ensures Rounds(t, keys[..n + 2], h) == Step(t, keys[n + 1], Step(t, keys[n], Rounds(t, keys[..n], h)))
  {
    hide Step;
    assert keys[..n + 2][..n + 1] == keys[..n + 1] && keys[..n + 1][..n] == keys[..n];
  }

  // ---------- deskey ----------

  /** Bit l of the key, the first bit of each byte being its lowest: VNC reads key bytes backwards. */
  function KeyBit(key: seq<Byte>, l: nat): bool
    requires |key| == 8 && l < 64
  {
    (key[l / 8] >> (l % 8)) & 1 == 1
  }

  /** A byte with its bits in the opposite order. */
  function Mirrored(x: Byte): Byte {
    ((x & 1) << 7) | ((x & 2) << 5) | ((x & 4) << 3) | ((x & 8) << 1)
    | ((x >> 1) & 8) | ((x >> 3) & 4) | ((x >> 5) & 2) | ((x >> 7) & 1)
  }

  /** The bits are those the DES standard numbers 1 to 64, of a key whose bytes are mirrored. */
  lemma KeyBitMirrored(key: seq<Byte>, l: nat)
    requires |key| == 8 && l < 64
    ensures KeyBit(key, l) <==> (Mirrored(key[l / 8]) >> (7 - l % 8)) & 1 == 1
  {
    var x, i := key[l / 8], l % 8;
    MirroredAt(x);
    assert i == 0 || i == 1 || i == 2 || i == 3 || i == 4 || i == 5 || i == 6 || i == 7;
  }

  lemma MirroredAt(x: Byte)
    ensures (x >> 0) & 1 == (Mirrored(x) >> 7) & 1 && (x >> 1) & 1 == (Mirrored(x) >> 6) & 1
    ensures (x >> 2) & 1 == (Mirrored(x) >> 5) & 1 && (x >> 3) & 1 == (Mirrored(x) >> 4) & 1
    ensures (x >> 4) & 1 == (Mirrored(x) >> 3) & 1 && (x >> 5) & 1 == (Mirrored(x) >> 2) & 1
    ensures (x >> 6) & 1 == (Mirrored(x) >> 1) & 1 && (x >> 7) & 1 == (Mirrored(x) >> 0) & 1
  {
  }

  /** Bit j of the key after the first permuted choice and the rotation of round i. */
  function RoundBit(t: Tables, key: seq<Byte>, i: nat, j: nat): bool
    requires t.Valid() && |key| == 8 && i < 16 && j < 56
  {
    var l := j + t.totrot[i];
    KeyBit(key, t.pc1[if l < (if j < 28 then 28 else 56) then l else l - 28])
  }

  function OrW(v: Word, w: Word): Word { v | w }

  /** Bit j of a 24-bit word, counted from the highest. */
  function BigByte(j: nat): Word
    requires j < 24
  {
    0x80_0000 >> j
  }

  lemma RawNone(t: Tables, key: seq<Byte>, i: nat, from: nat)
    requires t.Valid() && |key| == 8 && i < 16 && (from == 0 || from == 24)
    ensures RawBits(t, key, i, from, 0) == 0
  {
  }

  /** The first n of the 24 bits that pc2 picks from `from` on. */
  function RawBits(t: Tables, key: seq<Byte>, i: nat, from: nat, n: nat): Word
    requires t.Valid() && |key| == 8 && i < 16 && n <= 24 && (from == 0 || from == 24)
  {
    if n == 0 then 0
    else OrW(RawBits(t, key, i, from, n - 1), if RoundBit(t, key, i, t.pc2[from + n - 1]) then BigByte(n - 1) else 0)
  }

  function Cook(raw0: Word, raw1: Word): Key {
    Key(((raw0 & 0x00fc_0000) << 6) | ((raw0 & 0x0000_0fc0) << 10)
      | ((raw1 & 0x00fc_0000) >> 10) | ((raw1 & 0x0000_0fc0) >> 6),
        ((raw0 & 0x0003_f000) << 12) | ((raw0 & 0x0000_003f) << 16)
          | ((raw1 & 0x0003_f000) >> 4) | (raw1 & 0x0000_003f))
  }

  /** The key of round i. */
  function RoundKey(t: Tables, key: seq<Byte>, i: nat): Key
    requires t.Valid() && |key| == 8 && i < 16
  {
    Cook(RawBits(t, key, i, 0, 24), RawBits(t, key, i, 24, 24))
  }

  function RoundKeys(t: Tables, key: seq<Byte>): (r: seq<Key>)
    requires t.Valid() && |key| == 8
    ensures |r| == 16 && forall i :: 0 <= i < 16 ==> r[i] == RoundKey(t, key, i)
  {
    seq(16, i requires 0 <= i < 16 => RoundKey(t, key, i))
  }

  /** The bits of one raw key word, collected one by one. */
  method Collect(t: Tables, key: seq<Byte>, i: nat, from: nat, pcr: seq<bool>) returns (w: Word)
    requires t.Valid() && |key| == 8 && i < 16 && (from == 0 || from == 24)
    requires |pcr| == 56 && forall j :: 0 <= j < 56 ==> pcr[j] == RoundBit(t, key, i, j)
    ensures w == RawBits(t, key, i, from, 24)
  {
    hide RoundBit, OrW, BigByte, RawBits;
    RawNone(t, key, i, from);
    w := 0;
    var j := 0;
    while j < 24
      invariant j <= 24 && w == RawBits(t, key, i, from, j)
    {
      if pcr[t.pc2[from + j]] {
        w := OrW(w, BigByte(j));
      }
      RawNext(t, key, i, from, j);
      j := j + 1;
    }
  }

  lemma OrNone(w: Word)
    ensures OrW(w, 0) == w
  {
  }

  lemma RawNext(t: Tables, key: seq<Byte>, i: nat, from: nat, j: nat)
    requires t.Valid() && |key| == 8 && i < 16 && j < 24 && (from == 0 || from == 24)
    ensures RawBits(t, key, i, from, j + 1)
         == if RoundBit(t, key, i, t.pc2[from + j]) then OrW(RawBits(t, key, i, from, j), BigByte(j))
           else RawBits(t, key, i, from, j)
  {
    hide RoundBit, OrW, BigByte;
    OrNone(RawBits(t, key, i, from, j));
  }

  /** Both schedules hold the same sixteen keys; deciphering takes them in reverse order. */
  method DesKey(t: Tables, key: seq<Byte>, decipher: bool) returns (kn: seq<Word>)
    requires t.Valid() && |key| == 8
    ensures |kn| == 32 && Keys(kn) == if decipher then Reverse(RoundKeys(t, key)) else RoundKeys(t, key)
  {
    hide RoundBit, RawBits, Cook;
    kn := seq(32, _ => 0);
    var i := 0;
    while i < 16
      invariant i <= 16 && |kn| == 32
      invariant forall p :: 0 <= p < 16 && (if decipher then p >= 16 - i else p < i) ==>
        Keys(kn)[p] == RoundKey(t, key, if decipher then 15 - p else p)
    {
      var pcr := seq(56, j requires 0 <= j < 56 => RoundBit(t, key, i, j));
      var raw0 := Collect(t, key, i, 0, pcr);
      var raw1 := Collect(t, key, i, 24, pcr);
      var k := Cook(raw0, raw1);
      var p := if decipher then 15 - i else i;
      ghost var before := kn;
      kn := kn[2 * p := k.k0][2 * p + 1 := k.k1];
      PutKey(before, kn, p, k);
      i := i + 1;
    }
    SameKeys(t, key, kn, decipher);
  }

  lemma PutKey(kn: seq<Word>, kn': seq<Word>, p: nat, k: Key)
    requires |kn| == 32 && p < 16 && kn' == kn[2 * p := k.k0][2 * p + 1 := k.k1]
    ensures forall q :: 0 <= q < 16 ==> Keys(kn')[q] == if q == p then k else Keys(kn)[q]
  {
  }

  lemma SameKeys(t: Tables, key: seq<Byte>, kn: seq<Word>, decipher: bool)
    requires t.Valid() && |key| == 8 && |kn| == 32
    requires forall p :: 0 <= p < 16 ==> Keys(kn)[p] == RoundKey(t, key, if decipher then 15 - p else p)
    ensures Keys(kn) == if decipher then Reverse(RoundKeys(t, key)) else RoundKeys(t, key)
  {
    hide RoundKey, Reverse;
  }

  // ---------- des ----------

  function Scrunch(b: seq<Byte>): Halves
    requires |b| == 8
  {
    Halves(Pack(Column(b[0], b[1], b[2], b[3])), Pack(Column(b[4], b[5], b[6], b[7])))
  }

  function Unscrunch(h: Halves): (b: seq<Byte>)
    ensures |b| == 8
  {
    var x, y := Unpack(h.l), Unpack(h.r);
    [x.a, x.b, x.c, x.d, y.a, y.b, y.c, y.d]
  }

  lemma ScrunchBack(b: seq<Byte>, h: Halves)
    requires |b| == 8
    ensures Unscrunch(Scrunch(b)) == b && Scrunch(Unscrunch(h)) == h
  {
    hide Pack, Unpack;
    UnpackPack(Column(b[0], b[1], b[2], b[3]));
    UnpackPack(Column(b[4], b[5], b[6], b[7]));
    PackUnpack(h.l);
    PackUnpack(h.r);
  }
}

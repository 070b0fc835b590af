/** The cipher in the terms of the Data Encryption Standard (FIPS 46-3): which bit goes where. */
module DesStandard {
  import opened Arith
  import opened AesField
  import opened Des

  // ---------- Bits, counted from the highest ----------

  function Bit(x: Word, i: nat): Word
    requires i < 32
  {
    (x >> (31 - i)) & 1
  }

  function ByteBit(x: Byte, i: nat): Word
    requires i < 8
  {
    ((x >> (7 - i)) & 1) as Word
  }

  /** Bit p of a block of eight bytes. */
  function BlockBit(b: seq<Byte>, p: nat): Word
    requires |b| == 8 && p < 64
  {
    ByteBit(b[p / 8], p % 8)
  }

  /** The same of the block as two words. */
  function HalvesBit(h: Halves, p: nat): Word
    requires p < 64
  {
    if p < 32 then Bit(h.l, p) else Bit(h.r, p - 32)
  }

  // ---------- The initial permutation ----------

  /** Where bit j comes from: each row of eight runs up a column of the block, the even columns first. */
  function IP(j: nat): (p: nat)
    requires j < 64
    ensures p < 64
  {
    (if j < 32 then 57 + 2 * (j / 8) else 56 + 2 * (j / 8 - 4)) - 8 * (j % 8)
  }

  /** The code keeps either half turned left by one, so that bit j of it is bit j - 1 of the word. */
  function Turned(j: nat): (i: nat)
    requires j < 32
    ensures i < 32
  {
    if j == 0 then 31 else j - 1
  }

  lemma RowL0(h: Halves)
    ensures Bit(Initial(h).l, 31) == HalvesBit(h, 57) && Bit(Initial(h).l, 0) == HalvesBit(h, 49)
    ensures Bit(Initial(h).l, 1) == HalvesBit(h, 41) && Bit(Initial(h).l, 2) == HalvesBit(h, 33)
    ensures Bit(Initial(h).l, 3) == HalvesBit(h, 25) && Bit(Initial(h).l, 4) == HalvesBit(h, 17)
    ensures Bit(Initial(h).l, 5) == HalvesBit(h, 9) && Bit(Initial(h).l, 6) == HalvesBit(h, 1)
  {
  }

  lemma RowL1(h: Halves)
    ensures Bit(Initial(h).l, 7) == HalvesBit(h, 59) && Bit(Initial(h).l, 8) == HalvesBit(h, 51)
    ensures Bit(Initial(h).l, 9) == HalvesBit(h, 43) && Bit(Initial(h).l, 10) == HalvesBit(h, 35)
    ensures Bit(Initial(h).l, 11) == HalvesBit(h, 27) && Bit(Initial(h).l, 12) == HalvesBit(h, 19)
    ensures Bit(Initial(h).l, 13) == HalvesBit(h, 11) && Bit(Initial(h).l, 14) == HalvesBit(h, 3)
  {
  }

  lemma RowL2(h: Halves)
    ensures Bit(Initial(h).l, 15) == HalvesBit(h, 61) && Bit(Initial(h).l, 16) == HalvesBit(h, 53)
    ensures Bit(Initial(h).l, 17) == HalvesBit(h, 45) && Bit(Initial(h).l, 18) == HalvesBit(h, 37)
    ensures Bit(Initial(h).l, 19) == HalvesBit(h, 29) && Bit(Initial(h).l, 20) == HalvesBit(h, 21)
    ensures Bit(Initial(h).l, 21) == HalvesBit(h, 13) && Bit(Initial(h).l, 22) == HalvesBit(h, 5)
  {
  }

  lemma RowL3(h: Halves)
    ensures Bit(Initial(h).l, 23) == HalvesBit(h, 63) && Bit(Initial(h).l, 24) == HalvesBit(h, 55)
    ensures Bit(Initial(h).l, 25) == HalvesBit(h, 47) && Bit(Initial(h).l, 26) == HalvesBit(h, 39)
    ensures Bit(Initial(h).l, 27) == HalvesBit(h, 31) && Bit(Initial(h).l, 28) == HalvesBit(h, 23)
    ensures Bit(Initial(h).l, 29) == HalvesBit(h, 15) && Bit(Initial(h).l, 30) == HalvesBit(h, 7)
  {
  }

  lemma RowR0(h: Halves)
    ensures Bit(Initial(h).r, 31) == HalvesBit(h, 56) && Bit(Initial(h).r, 0) == HalvesBit(h, 48)
    ensures Bit(Initial(h).r, 1) == HalvesBit(h, 40) && Bit(Initial(h).r, 2) == HalvesBit(h, 32)
    ensures Bit(Initial(h).r, 3) == HalvesBit(h, 24) && Bit(Initial(h).r, 4) == HalvesBit(h, 16)
    ensures Bit(Initial(h).r, 5) == HalvesBit(h, 8) && Bit(Initial(h).r, 6) == HalvesBit(h, 0)
  {
  }

  lemma RowR1(h: Halves)
    ensures Bit(Initial(h).r, 7) == HalvesBit(h, 58) && Bit(Initial(h).r, 8) == HalvesBit(h, 50)
    ensures Bit(Initial(h).r, 9) == HalvesBit(h, 42) && Bit(Initial(h).r, 10) == HalvesBit(h, 34)
    ensures Bit(Initial(h).r, 11) == HalvesBit(h, 26) && Bit(Initial(h).r, 12) == HalvesBit(h, 18)
    ensures Bit(Initial(h).r, 13) == HalvesBit(h, 10) && Bit(Initial(h).r, 14) == HalvesBit(h, 2)
  {
  }

  lemma RowR2(h: Halves)
    ensures Bit(Initial(h).r, 15) == HalvesBit(h, 60) && Bit(Initial(h).r, 16) == HalvesBit(h, 52)
    ensures Bit(Initial(h).r, 17) == HalvesBit(h, 44) && Bit(Initial(h).r, 18) == HalvesBit(h, 36)
    ensures Bit(Initial(h).r, 19) == HalvesBit(h, 28) && Bit(Initial(h).r, 20) == HalvesBit(h, 20)
    ensures Bit(Initial(h).r, 21) == HalvesBit(h, 12) && Bit(Initial(h).r, 22) == HalvesBit(h, 4)
  {
  }

  lemma RowR3(h: Halves)
    ensures Bit(Initial(h).r, 23) == HalvesBit(h, 62) && Bit(Initial(h).r, 24) == HalvesBit(h, 54)
    ensures Bit(Initial(h).r, 25) == HalvesBit(h, 46) && Bit(Initial(h).r, 26) == HalvesBit(h, 38)
    ensures Bit(Initial(h).r, 27) == HalvesBit(h, 30) && Bit(Initial(h).r, 28) == HalvesBit(h, 22)
    ensures Bit(Initial(h).r, 29) == HalvesBit(h, 14) && Bit(Initial(h).r, 30) == HalvesBit(h, 6)
  {
  }

  /** The opening swaps are the initial permutation. */
  lemma InitialAt(h: Halves, j: nat)
    requires j < 32
    ensures Bit(Initial(h).l, Turned(j)) == HalvesBit(h, IP(j))
    ensures Bit(Initial(h).r, Turned(j)) == HalvesBit(h, IP(32 + j))
  {
    hide Initial, Bit, HalvesBit, IP, Turned;
    InitialLAt(h, j);
    InitialRAt(h, j);
  }

  lemma IPAt(g: nat, c: nat)
    requires g < 4 && c < 8
    ensures IP(8 * g + c) == 57 + 2 * g - 8 * c && IP(32 + (8 * g + c)) == 56 + 2 * g - 8 * c
  {
    DivUnique(8 * g + c, 8, g, c);
    DivUnique(32 + (8 * g + c), 8, g + 4, c);
  }

  lemma RowL0At(h: Halves, c: nat)
    requires c < 8
    ensures Bit(Initial(h).l, Turned(c)) == HalvesBit(h, 57 - 8 * c)
  {
    hide Initial, Bit, HalvesBit;
    RowL0(h);
    assert c == 0 || c == 1 || c == 2 || c == 3 || c == 4 || c == 5 || c == 6 || c == 7;
  }

  lemma RowL1At(h: Halves, c: nat)
    requires c < 8
    ensures Bit(Initial(h).l, 7 + c) == HalvesBit(h, 59 - 8 * c)
  {
    hide Initial, Bit, HalvesBit;
    RowL1(h);
    assert c == 0 || c == 1 || c == 2 || c == 3 || c == 4 || c == 5 || c == 6 || c == 7;
  }

  lemma RowL2At(h: Halves, c: nat)
    requires c < 8
    ensures Bit(Initial(h).l, 15 + c) == HalvesBit(h, 61 - 8 * c)
  {
    hide Initial, Bit, HalvesBit;
    RowL2(h);
    assert c == 0 || c == 1 || c == 2 || c == 3 || c == 4 || c == 5 || c == 6 || c == 7;
  }

  lemma RowL3At(h: Halves, c: nat)
    requires c < 8
    ensures Bit(Initial(h).l, 23 + c) == HalvesBit(h, 63 - 8 * c)
  {
    hide Initial, Bit, HalvesBit;
    RowL3(h);
    assert c == 0 || c == 1 || c == 2 || c == 3 || c == 4 || c == 5 || c == 6 || c == 7;
  }

  lemma InitialLAt(h: Halves, j: nat)
    requires j < 32
    ensures Bit(Initial(h).l, Turned(j)) == HalvesBit(h, IP(j))
  {
    hide Initial, Bit, HalvesBit, IP;
    var c := j % 8;
    IPAt(j / 8, c);
    if j < 8 {
      RowL0At(h, c);
    } else if j < 16 {
      RowL1At(h, c);
    } else if j < 24 {
      RowL2At(h, c);
    } else {
      RowL3At(h, c);
    }
  }

  lemma RowR0At(h: Halves, c: nat)
    requires c < 8
    ensures Bit(Initial(h).r, Turned(c)) == HalvesBit(h, 56 - 8 * c)
  {
    hide Initial, Bit, HalvesBit;
    RowR0(h);
    assert c == 0 || c == 1 || c == 2 || c == 3 || c == 4 || c == 5 || c == 6 || c == 7;
  }

  lemma RowR1At(h: Halves, c: nat)
    requires c < 8
    ensures Bit(Initial(h).r, 7 + c) == HalvesBit(h, 58 - 8 * c)
  {
    hide Initial, Bit, HalvesBit;
    RowR1(h);
    assert c == 0 || c == 1 || c == 2 || c == 3 || c == 4 || c == 5 || c == 6 || c == 7;
  }

  lemma RowR2At(h: Halves, c: nat)
    requires c < 8
    ensures Bit(Initial(h).r, 15 + c) == HalvesBit(h, 60 - 8 * c)
  {
    hide Initial, Bit, HalvesBit;
    RowR2(h);
    assert c == 0 || c == 1 || c == 2 || c == 3 || c == 4 || c == 5 || c == 6 || c == 7;
  }

  lemma RowR3At(h: Halves, c: nat)
    requires c < 8
    ensures Bit(Initial(h).r, 23 + c) == HalvesBit(h, 62 - 8 * c)
  {
    hide Initial, Bit, HalvesBit;
    RowR3(h);
    assert c == 0 || c == 1 || c == 2 || c == 3 || c == 4 || c == 5 || c == 6 || c == 7;
  }

  lemma InitialRAt(h: Halves, j: nat)
    requires j < 32
    ensures Bit(Initial(h).r, Turned(j)) == HalvesBit(h, IP(32 + j))
  {
    hide Initial, Bit, HalvesBit, IP;
    var c := j % 8;
    IPAt(j / 8, c);
    if j < 8 {
      RowR0At(h, c);
    } else if j < 16 {
      RowR1At(h, c);
    } else if j < 24 {
      RowR2At(h, c);
    } else {
      RowR3At(h, c);
    }
  }

  // ---------- Bytes and words ----------

  lemma PackA(x: Column)
    ensures Bit(Pack(x), 0) == ByteBit(x.a, 0) && Bit(Pack(x), 1) == ByteBit(x.a, 1)
    ensures Bit(Pack(x), 2) == ByteBit(x.a, 2) && Bit(Pack(x), 3) == ByteBit(x.a, 3)
    ensures Bit(Pack(x), 4) == ByteBit(x.a, 4) && Bit(Pack(x), 5) == ByteBit(x.a, 5)
    ensures Bit(Pack(x), 6) == ByteBit(x.a, 6) && Bit(Pack(x), 7) == ByteBit(x.a, 7)
  {
  }

  lemma PackB(x: Column)
    ensures Bit(Pack(x), 8) == ByteBit(x.b, 0) && Bit(Pack(x), 9) == ByteBit(x.b, 1)
    ensures Bit(Pack(x), 10) == ByteBit(x.b, 2) && Bit(Pack(x), 11) == ByteBit(x.b, 3)
    ensures Bit(Pack(x), 12) == ByteBit(x.b, 4) && Bit(Pack(x), 13) == ByteBit(x.b, 5)
    ensures Bit(Pack(x), 14) == ByteBit(x.b, 6) && Bit(Pack(x), 15) == ByteBit(x.b, 7)
  {
  }

  lemma PackC(x: Column)
    ensures Bit(Pack(x), 16) == ByteBit(x.c, 0) && Bit(Pack(x), 17) == ByteBit(x.c, 1)
    ensures Bit(Pack(x), 18) == ByteBit(x.c, 2) && Bit(Pack(x), 19) == ByteBit(x.c, 3)
    ensures Bit(Pack(x), 20) == ByteBit(x.c, 4) && Bit(Pack(x), 21) == ByteBit(x.c, 5)
    ensures Bit(Pack(x), 22) == ByteBit(x.c, 6) && Bit(Pack(x), 23) == ByteBit(x.c, 7)
  {
  }

  lemma PackD(x: Column)
    ensures Bit(Pack(x), 24) == ByteBit(x.d, 0) && Bit(Pack(x), 25) == ByteBit(x.d, 1)
    ensures Bit(Pack(x), 26) == ByteBit(x.d, 2) && Bit(Pack(x), 27) == ByteBit(x.d, 3)
    ensures Bit(Pack(x), 28) == ByteBit(x.d, 4) && Bit(Pack(x), 29) == ByteBit(x.d, 5)
    ensures Bit(Pack(x), 30) == ByteBit(x.d, 6) && Bit(Pack(x), 31) == ByteBit(x.d, 7)
  {
  }

  /** The bits of each byte of a packed word, in turn. */
  lemma PackAt(x: Column, i: nat)
    requires i < 8
    ensures Bit(Pack(x), i) == ByteBit(x.a, i) && Bit(Pack(x), 8 + i) == ByteBit(x.b, i)
    ensures Bit(Pack(x), 16 + i) == ByteBit(x.c, i) && Bit(Pack(x), 24 + i) == ByteBit(x.d, i)
  {
    hide Bit, Pack, ByteBit;
    PackA(x);
    PackB(x);
    PackC(x);
    PackD(x);
    assert i == 0 || i == 1 || i == 2 || i == 3 || i == 4 || i == 5 || i == 6 || i == 7;
  }

  /** The block goes in bit by bit. */
  lemma ScrunchAt(b: seq<Byte>, p: nat)
    requires |b| == 8 && p < 64
    ensures HalvesBit(Scrunch(b), p) == BlockBit(b, p)
  {
    hide Bit, Pack, ByteBit;
    if p < 32 {
      WordAt(b[..4], p);
    } else {
      WordAt(b[4..], p - 32);
    }
  }

  lemma WordAt(b: seq<Byte>, p: nat)
    requires |b| == 4 && p < 32
    ensures Bit(Pack(Column(b[0], b[1], b[2], b[3])), p) == ByteBit(b[p / 8], p % 8)
  {
    hide Bit, Pack, ByteBit;
    var q, i := p / 8, p % 8;
    PackAt(Column(b[0], b[1], b[2], b[3]), i);
    assert p == 8 * q + i;
    assert q == 0 || q == 1 || q == 2 || q == 3;
  }

  // ---------- The round ----------

  /** Six bits as a number, the first the highest. */
  function Six(a: Word, b: Word, c: Word, d: Word, e: Word, f: Word): Word {
    OrW(OrW(OrW(OrW(OrW(Up(a, 5), Up(b, 4)), Up(c, 3)), Up(d, 2)), Up(e, 1)), Up(f, 0))
  }

  function Up(x: Word, n: nat): Word
    requires n < 6
  {
    x << n
  }

  /** The expansion: bit i of the six for box n is this bit of the half. */
  function E(n: nat, i: nat): (j: nat)
    requires 1 <= n <= 8 && i < 6
    ensures j < 32
  {
    (4 * (n - 1) + i + 31) % 32
  }

  function Expansion(x: Word, n: nat): Word
    requires 1 <= n <= 8
  {
    Six(Bit(x, Turned(E(n, 0))), Bit(x, Turned(E(n, 1))), Bit(x, Turned(E(n, 2))),
        Bit(x, Turned(E(n, 3))), Bit(x, Turned(E(n, 4))), Bit(x, Turned(E(n, 5))))
  }

  /** Bit i of the six that the key of round r gives box n: each half of the first choice turns by the rotation of the
      round before the second choice. */
  function Picked(t: Tables, key: seq<Byte>, r: nat, n: nat, i: nat): Word
    requires t.Valid() && |key| == 8 && r < 16 && 1 <= n <= 8 && i < 6
  {
    var j := t.pc2[6 * (n - 1) + i];
    var l := t.pc1[if j < 28 then (j + t.totrot[r]) % 28 else 28 + (j - 28 + t.totrot[r]) % 28];
    ((key[l / 8] >> (l % 8)) & 1) as Word
  }

  function Group(t: Tables, key: seq<Byte>, r: nat, n: nat): Word
    requires t.Valid() && |key| == 8 && r < 16 && 1 <= n <= 8
  {
    Six(Picked(t, key, r, n, 0), Picked(t, key, r, n, 1), Picked(t, key, r, n, 2),
        Picked(t, key, r, n, 3), Picked(t, key, r, n, 4), Picked(t, key, r, n, 5))
  }

  /** What box n contributes in round r. */
  function Box(t: Tables, key: seq<Byte>, r: nat, x: Word, n: nat): Word
    requires t.Valid() && |key| == 8 && r < 16 && 1 <= n <= 8
  {
    t.sp(n, XorW(Expansion(x, n), Group(t, key, r, n)))
  }

  /** What all boxes together add to the other half. */
  function Boxes(t: Tables, key: seq<Byte>, r: nat, x: Word): Word
    requires t.Valid() && |key| == 8 && r < 16
  {
    Or8(Box(t, key, r, x, 7), Box(t, key, r, x, 5), Box(t, key, r, x, 3), Box(t, key, r, x, 1),
        Box(t, key, r, x, 8), Box(t, key, r, x, 6), Box(t, key, r, x, 4), Box(t, key, r, x, 2))
  }

  // ---------- The key of a round ----------

  lemma PickedIs(t: Tables, key: seq<Byte>, r: nat, n: nat, i: nat)
    requires t.Valid() && |key| == 8 && r < 16 && 1 <= n <= 8 && i < 6
    ensures Picked(t, key, r, n, i) == if RoundBit(t, key, r, t.pc2[6 * (n - 1) + i]) then 1 else 0
  {
    var j := t.pc2[6 * (n - 1) + i];
    var m := t.totrot[r];
    Wrapped(j, m);
    var l := t.pc1[if j < 28 then (j + m) % 28 else 28 + (j - 28 + m) % 28];
    LowBit(key[l / 8] >> (l % 8));
  }

  /** A rotation by at most 28 wraps once at most. */
  lemma Wrapped(j: nat, m: nat)
    requires j < 56 && m <= 28
    ensures (if j + m < (if j < 28 then 28 else 56) then j + m else j + m - 28)
      == if j < 28 then (j + m) % 28 else 28 + (j - 28 + m) % 28
  {
  }

  lemma LowBit(x: Byte)
    ensures ((x & 1) as Word) == if x & 1 == 1 then 1 else 0
  {
  }

  function Term(b: bool, mask: Word): Word { if b then mask else 0 }

  function One(b: bool): Word { if b then 1 else 0 }

  function Or6(w: Word, a: Word, b: Word, c: Word, d: Word, e: Word, f: Word): Word {
    OrW(OrW(OrW(OrW(OrW(OrW(w, a), b), c), d), e), f)
  }

  /** Group q of four in a raw key word. */
  function Placed(g: Word, q: nat): Word
    requires q < 4
  {
    if q == 0 then Up18(g) else if q == 1 then Up12(g) else if q == 2 then Up6(g) else g
  }

  function Up6(x: Word): Word { x << 6 }
  function Up12(x: Word): Word { x << 12 }
  function Up18(x: Word): Word { x << 18 }

  lemma OrAssoc(x: Word, y: Word, z: Word)
    ensures OrW(OrW(x, y), z) == OrW(x, OrW(y, z))
  {
  }

  lemma PlacedOr(x: Word, y: Word, q: nat)
    requires q < 4
    ensures Placed(OrW(x, y), q) == OrW(Placed(x, q), Placed(y, q))
  {
    hide OrW, Up6, Up12, Up18;
    Up6Or(x, y);
    Up12Or(x, y);
    Up18Or(x, y);
  }

  lemma Up6Or(x: Word, y: Word)
    ensures Up6(OrW(x, y)) == OrW(Up6(x), Up6(y))
  {
    assert (x | y) << 6 == (x << 6) | (y << 6);
  }

  lemma Up12Or(x: Word, y: Word)
    ensures Up12(OrW(x, y)) == OrW(Up12(x), Up12(y))
  {
    assert (x | y) << 12 == (x << 12) | (y << 12);
  }

  lemma Up18Or(x: Word, y: Word)
    ensures Up18(OrW(x, y)) == OrW(Up18(x), Up18(y))
  {
    assert (x | y) << 18 == (x << 18) | (y << 18);
  }

  lemma Terms0(b: bool)
    ensures Placed(Up(One(b), 5), 0) == Term(b, BigByte(0)) && Placed(Up(One(b), 4), 0) == Term(b, BigByte(1))
    ensures Placed(Up(One(b), 3), 0) == Term(b, BigByte(2)) && Placed(Up(One(b), 2), 0) == Term(b, BigByte(3))
    ensures Placed(Up(One(b), 1), 0) == Term(b, BigByte(4)) && Placed(Up(One(b), 0), 0) == Term(b, BigByte(5))
  {
  }

  lemma Terms1(b: bool)
    ensures Placed(Up(One(b), 5), 1) == Term(b, BigByte(6)) && Placed(Up(One(b), 4), 1) == Term(b, BigByte(7))
    ensures Placed(Up(One(b), 3), 1) == Term(b, BigByte(8)) && Placed(Up(One(b), 2), 1) == Term(b, BigByte(9))
    ensures Placed(Up(One(b), 1), 1) == Term(b, BigByte(10)) && Placed(Up(One(b), 0), 1) == Term(b, BigByte(11))
  {
  }

  lemma Terms2(b: bool)
    ensures Placed(Up(One(b), 5), 2) == Term(b, BigByte(12)) && Placed(Up(One(b), 4), 2) == Term(b, BigByte(13))
    ensures Placed(Up(One(b), 3), 2) == Term(b, BigByte(14)) && Placed(Up(One(b), 2), 2) == Term(b, BigByte(15))
    ensures Placed(Up(One(b), 1), 2) == Term(b, BigByte(16)) && Placed(Up(One(b), 0), 2) == Term(b, BigByte(17))
  {
  }

  lemma Terms3(b: bool)
    ensures Placed(Up(One(b), 5), 3) == Term(b, BigByte(18)) && Placed(Up(One(b), 4), 3) == Term(b, BigByte(19))
    ensures Placed(Up(One(b), 3), 3) == Term(b, BigByte(20)) && Placed(Up(One(b), 2), 3) == Term(b, BigByte(21))
    ensures Placed(Up(One(b), 1), 3) == Term(b, BigByte(22)) && Placed(Up(One(b), 0), 3) == Term(b, BigByte(23))
  {
  }

  /** Each bit of group q, where it belongs. */
  lemma Terms(b: bool, q: nat)
    requires q < 4
    ensures Placed(Up(One(b), 5), q) == Term(b, BigByte(6 * q))
    ensures Placed(Up(One(b), 4), q) == Term(b, BigByte(6 * q + 1))
    ensures Placed(Up(One(b), 3), q) == Term(b, BigByte(6 * q + 2))
    ensures Placed(Up(One(b), 2), q) == Term(b, BigByte(6 * q + 3))
    ensures Placed(Up(One(b), 1), q) == Term(b, BigByte(6 * q + 4))
    ensures Placed(Up(One(b), 0), q) == Term(b, BigByte(6 * q + 5))
  {
    hide Placed, Up, One, Term, BigByte;
    if q == 0 {
      Terms0(b);
    } else if q == 1 {
      Terms1(b);
    } else if q == 2 {
      Terms2(b);
    } else {
      Terms3(b);
    }
  }

  lemma Or6Assoc(w: Word, a: Word, b: Word, c: Word, d: Word, e: Word, f: Word)
    ensures Or6(w, a, b, c, d, e, f) == OrW(w, OrW(OrW(OrW(OrW(OrW(a, b), c), d), e), f))
  {
    hide OrW;
    OrAssoc(w, a, b);
    OrAssoc(w, OrW(a, b), c);
    OrAssoc(w, OrW(OrW(a, b), c), d);
    OrAssoc(w, OrW(OrW(OrW(a, b), c), d), e);
    OrAssoc(w, OrW(OrW(OrW(OrW(a, b), c), d), e), f);
  }

  lemma PlacedSix(a: Word, b: Word, c: Word, d: Word, e: Word, f: Word, q: nat)
    requires q < 4
    ensures Placed(Six(a, b, c, d, e, f), q)
      == OrW(OrW(OrW(OrW(OrW(Placed(Up(a, 5), q), Placed(Up(b, 4), q)), Placed(Up(c, 3), q)), Placed(Up(d, 2), q)),
             Placed(Up(e, 1), q)), Placed(Up(f, 0), q))
  {
    hide OrW, Up, Placed;
    var ab := OrW(Up(a, 5), Up(b, 4));
    var abc := OrW(ab, Up(c, 3));
    var abcd := OrW(abc, Up(d, 2));
    PlacedOr(Up(a, 5), Up(b, 4), q);
    PlacedOr(ab, Up(c, 3), q);
    PlacedOr(abc, Up(d, 2), q);
    PlacedOr(abcd, Up(e, 1), q);
    PlacedOr(OrW(abcd, Up(e, 1)), Up(f, 0), q);
  }

  lemma RawStep(t: Tables, key: seq<Byte>, r: nat, from: nat, n: nat)
    requires t.Valid() && |key| == 8 && r < 16 && (from == 0 || from == 24) && n < 24
    ensures RawBits(t, key, r, from, n + 1)
      == OrW(RawBits(t, key, r, from, n), Term(RoundBit(t, key, r, t.pc2[from + n]), BigByte(n)))
  {
    hide RoundBit, BigByte, OrW;
  }

  lemma RawSteps(t: Tables, key: seq<Byte>, r: nat, from: nat, n: nat, j: nat)
    requires t.Valid() && |key| == 8 && r < 16 && (from == 0 || from == 24) && n + 6 <= 24 && j == from + n
    ensures RawBits(t, key, r, from, n + 6)
      == Or6(RawBits(t, key, r, from, n), Term(RoundBit(t, key, r, t.pc2[j]), BigByte(n)),
             Term(RoundBit(t, key, r, t.pc2[j + 1]), BigByte(n + 1)),
             Term(RoundBit(t, key, r, t.pc2[j + 2]), BigByte(n + 2)),
             Term(RoundBit(t, key, r, t.pc2[j + 3]), BigByte(n + 3)),
             Term(RoundBit(t, key, r, t.pc2[j + 4]), BigByte(n + 4)),
             Term(RoundBit(t, key, r, t.pc2[j + 5]), BigByte(n + 5)))
  {
    hide RoundBit, BigByte, RawBits, Term, OrW;
    RawStep(t, key, r, from, n);
    RawStep(t, key, r, from, n + 1);
    RawStep(t, key, r, from, n + 2);
    RawStep(t, key, r, from, n + 3);
    RawStep(t, key, r, from, n + 4);
    RawStep(t, key, r, from, n + 5);
  }

  lemma GroupIs(t: Tables, key: seq<Byte>, r: nat, n: nat)
    requires t.Valid() && |key| == 8 && r < 16 && 1 <= n <= 8
    ensures var j := 6 * (n - 1);
      Group(t, key, r, n)
      == Six(One(RoundBit(t, key, r, t.pc2[j])), One(RoundBit(t, key, r, t.pc2[j + 1])),
             One(RoundBit(t, key, r, t.pc2[j + 2])), One(RoundBit(t, key, r, t.pc2[j + 3])),
             One(RoundBit(t, key, r, t.pc2[j + 4])), One(RoundBit(t, key, r, t.pc2[j + 5])))
  {
    hide RoundBit, Picked, Six;
    PickedIs(t, key, r, n, 0);
    PickedIs(t, key, r, n, 1);
    PickedIs(t, key, r, n, 2);
    PickedIs(t, key, r, n, 3);
    PickedIs(t, key, r, n, 4);
    PickedIs(t, key, r, n, 5);
  }

  lemma SixTerms(w: Word, a: bool, b: bool, c: bool, d: bool, e: bool, f: bool, q: nat)
    requires q < 4
    ensures Or6(w, Term(a, BigByte(6 * q)), Term(b, BigByte(6 * q + 1)), Term(c, BigByte(6 * q + 2)),
                Term(d, BigByte(6 * q + 3)), Term(e, BigByte(6 * q + 4)), Term(f, BigByte(6 * q + 5)))
      == OrW(w, Placed(Six(One(a), One(b), One(c), One(d), One(e), One(f)), q))
  {
    hide Six, Term, One, BigByte, OrW, Or6, Placed, Up;
    Terms(a, q);
    Terms(b, q);
    Terms(c, q);
    Terms(d, q);
    Terms(e, q);
    Terms(f, q);
    PlacedSix(One(a), One(b), One(c), One(d), One(e), One(f), q);
    Or6Assoc(w, Term(a, BigByte(6 * q)), Term(b, BigByte(6 * q + 1)), Term(c, BigByte(6 * q + 2)),
      Term(d, BigByte(6 * q + 3)), Term(e, BigByte(6 * q + 4)), Term(f, BigByte(6 * q + 5)));
  }

  /** Six picks are a group. */
  lemma RawGroup(t: Tables, key: seq<Byte>, r: nat, from: nat, q: nat, n: nat)
    requires t.Valid() && |key| == 8 && r < 16 && (from == 0 || from == 24) && q < 4 && 6 * n == from + 6 * q + 6
    ensures n <= 8 && RawBits(t, key, r, from, 6 * q + 6)
      == OrW(RawBits(t, key, r, from, 6 * q), Placed(Group(t, key, r, n), q))
  {
    hide RoundBit, RawBits, Group, Six, Term, One, BigByte, OrW, Or6, Placed;
    var j := 6 * (n - 1);
    RawSteps(t, key, r, from, 6 * q, j);
    GroupIs(t, key, r, n);
    SixTerms(RawBits(t, key, r, from, 6 * q), RoundBit(t, key, r, t.pc2[j]), RoundBit(t, key, r, t.pc2[j + 1]),
      RoundBit(t, key, r, t.pc2[j + 2]), RoundBit(t, key, r, t.pc2[j + 3]), RoundBit(t, key, r, t.pc2[j + 4]),
      RoundBit(t, key, r, t.pc2[j + 5]), q);
  }

  /** Four groups side by side. */
  function Four(a: Word, b: Word, c: Word, d: Word): Word { (a << 18) | (b << 12) | (c << 6) | d }

  lemma FourIs(a: Word, b: Word, c: Word, d: Word)
    ensures OrW(OrW(OrW(OrW(0, Placed(a, 0)), Placed(b, 1)), Placed(c, 2)), Placed(d, 3)) == Four(a, b, c, d)
  {
  }

  lemma RawIs(t: Tables, key: seq<Byte>, r: nat, from: nat)
    requires t.Valid() && |key| == 8 && r < 16 && (from == 0 || from == 24)
    ensures var n := from / 6;
      RawBits(t, key, r, from, 24)
      == Four(Group(t, key, r, n + 1), Group(t, key, r, n + 2), Group(t, key, r, n + 3), Group(t, key, r, n + 4))
  {
    hide RawBits, Group, Four, OrW, Placed;
    var n := from / 6;
    RawNone(t, key, r, from);
    RawGroup(t, key, r, from, 0, n + 1);
    RawGroup(t, key, r, from, 1, n + 2);
    RawGroup(t, key, r, from, 2, n + 3);
    RawGroup(t, key, r, from, 3, n + 4);
    FourIs(Group(t, key, r, n + 1), Group(t, key, r, n + 2), Group(t, key, r, n + 3), Group(t, key, r, n + 4));
  }

  /** Groups for the odd boxes in one word, for the even boxes in the other, each in the low six bits of a byte. */
  function Spaced(a: Word, b: Word, c: Word, d: Word): Word { (a << 24) | (b << 16) | (c << 8) | d }

  lemma CookIs(a: Word, b: Word, c: Word, d: Word, e: Word, f: Word, g: Word, h: Word)
    requires a <= 0x3f && b <= 0x3f && c <= 0x3f && d <= 0x3f && e <= 0x3f && f <= 0x3f && g <= 0x3f && h <= 0x3f
    ensures Cook(Four(a, b, c, d), Four(e, f, g, h)) == Key(Spaced(a, c, e, g), Spaced(b, d, f, h))
  {
  }

  lemma SixSmall(a: Word, b: Word, c: Word, d: Word, e: Word, f: Word)
    requires a <= 1 && b <= 1 && c <= 1 && d <= 1 && e <= 1 && f <= 1
    ensures Six(a, b, c, d, e, f) <= 0x3f
  {
  }

  lemma GroupSmall(t: Tables, key: seq<Byte>, r: nat, n: nat)
    requires t.Valid() && |key| == 8 && r < 16 && 1 <= n <= 8
    ensures Group(t, key, r, n) <= 0x3f
  {
    hide RoundBit, Six, Group;
    GroupIs(t, key, r, n);
    var j := 6 * (n - 1);
    SixSmall(One(RoundBit(t, key, r, t.pc2[j])), One(RoundBit(t, key, r, t.pc2[j + 1])),
      One(RoundBit(t, key, r, t.pc2[j + 2])), One(RoundBit(t, key, r, t.pc2[j + 3])),
      One(RoundBit(t, key, r, t.pc2[j + 4])), One(RoundBit(t, key, r, t.pc2[j + 5])));
  }

  /** The key of a round, group by group. */
  lemma RoundKeyIs(t: Tables, key: seq<Byte>, r: nat)
    requires t.Valid() && |key| == 8 && r < 16
    ensures RoundKey(t, key, r)
      == Key(Spaced(Group(t, key, r, 1), Group(t, key, r, 3), Group(t, key, r, 5), Group(t, key, r, 7)),
             Spaced(Group(t, key, r, 2), Group(t, key, r, 4), Group(t, key, r, 6), Group(t, key, r, 8)))
  {
    hide RawBits, Group, Four, Spaced, Cook;
    RawIs(t, key, r, 0);
    RawIs(t, key, r, 24);
    GroupSmall(t, key, r, 1);
    GroupSmall(t, key, r, 2);
    GroupSmall(t, key, r, 3);
    GroupSmall(t, key, r, 4);
    GroupSmall(t, key, r, 5);
    GroupSmall(t, key, r, 6);
    GroupSmall(t, key, r, 7);
    GroupSmall(t, key, r, 8);
    CookIs(Group(t, key, r, 1), Group(t, key, r, 2), Group(t, key, r, 3), Group(t, key, r, 4),
      Group(t, key, r, 5), Group(t, key, r, 6), Group(t, key, r, 7), Group(t, key, r, 8));
  }

  // ---------- What a round adds ----------

  lemma Field0Xor(x: Word, y: Word)
    ensures Field0(XorW(x, y)) == XorW(Field0(x), Field0(y))
  {
    assert (x ^ y) & 0x3f == (x & 0x3f) ^ (y & 0x3f);
  }

  lemma Field1Xor(x: Word, y: Word)
    ensures Field1(XorW(x, y)) == XorW(Field1(x), Field1(y))
  {
    assert ((x ^ y) >> 8) & 0x3f == ((x >> 8) & 0x3f) ^ ((y >> 8) & 0x3f);
  }

  lemma Field2Xor(x: Word, y: Word)
    ensures Field2(XorW(x, y)) == XorW(Field2(x), Field2(y))
  {
    assert ((x ^ y) >> 16) & 0x3f == ((x >> 16) & 0x3f) ^ ((y >> 16) & 0x3f);
  }

  lemma Field3Xor(x: Word, y: Word)
    ensures Field3(XorW(x, y)) == XorW(Field3(x), Field3(y))
  {
    assert ((x ^ y) >> 24) & 0x3f == ((x >> 24) & 0x3f) ^ ((y >> 24) & 0x3f);
  }

  lemma FieldsOf(a: Word, b: Word, c: Word, d: Word)
    requires a <= 0x3f && b <= 0x3f && c <= 0x3f && d <= 0x3f
    ensures Field3(Spaced(a, b, c, d)) == a && Field2(Spaced(a, b, c, d)) == b
    ensures Field1(Spaced(a, b, c, d)) == c && Field0(Spaced(a, b, c, d)) == d
  {
  }

  lemma Expansion1(x: Word)
    ensures Field3(Turn4(x)) == Six(Bit(x, 30), Bit(x, 31), Bit(x, 0), Bit(x, 1), Bit(x, 2), Bit(x, 3))
  {
  }

  lemma Expansion2(x: Word)
    ensures Field3(x) == Six(Bit(x, 2), Bit(x, 3), Bit(x, 4), Bit(x, 5), Bit(x, 6), Bit(x, 7))
  {
  }

  lemma Expansion3(x: Word)
    ensures Field2(Turn4(x)) == Six(Bit(x, 6), Bit(x, 7), Bit(x, 8), Bit(x, 9), Bit(x, 10), Bit(x, 11))
  {
  }

  lemma Expansion4(x: Word)
    ensures Field2(x) == Six(Bit(x, 10), Bit(x, 11), Bit(x, 12), Bit(x, 13), Bit(x, 14), Bit(x, 15))
  {
  }

  lemma Expansion5(x: Word)
    ensures Field1(Turn4(x)) == Six(Bit(x, 14), Bit(x, 15), Bit(x, 16), Bit(x, 17), Bit(x, 18), Bit(x, 19))
  {
  }

  lemma Expansion6(x: Word)
    ensures Field1(x) == Six(Bit(x, 18), Bit(x, 19), Bit(x, 20), Bit(x, 21), Bit(x, 22), Bit(x, 23))
  {
  }

  lemma Expansion7(x: Word)
    ensures Field0(Turn4(x)) == Six(Bit(x, 22), Bit(x, 23), Bit(x, 24), Bit(x, 25), Bit(x, 26), Bit(x, 27))
  {
  }

  lemma Expansion8(x: Word)
    ensures Field0(x) == Six(Bit(x, 26), Bit(x, 27), Bit(x, 28), Bit(x, 29), Bit(x, 30), Bit(x, 31))
  {
  }

  /** Where the code finds the bits for box n. */
  lemma Places(n: nat)
    requires 1 <= n <= 8
    ensures Turned(E(n, 0)) == (if n == 1 then 30 else 4 * n - 6)
    ensures Turned(E(n, 1)) == (if n == 1 then 31 else 4 * n - 5)
    ensures Turned(E(n, 2)) == 4 * n - 4 && Turned(E(n, 3)) == 4 * n - 3
    ensures Turned(E(n, 4)) == 4 * n - 2 && Turned(E(n, 5)) == 4 * n - 1
  {
  }

  lemma OddBoxes(x: Word)
    ensures Field3(Turn4(x)) == Expansion(x, 1) && Field2(Turn4(x)) == Expansion(x, 3)
    ensures Field1(Turn4(x)) == Expansion(x, 5) && Field0(Turn4(x)) == Expansion(x, 7)
  {
    hide Field0, Field1, Field2, Field3, Turn4, Six, Bit, E, Turned;
    Expansion1(x);
    Expansion3(x);
    Expansion5(x);
    Expansion7(x);
    Places(1);
    Places(3);
    Places(5);
    Places(7);
  }

  lemma EvenBoxes(x: Word)
    ensures Field3(x) == Expansion(x, 2) && Field2(x) == Expansion(x, 4)
    ensures Field1(x) == Expansion(x, 6) && Field0(x) == Expansion(x, 8)
  {
    hide Field0, Field1, Field2, Field3, Six, Bit, E, Turned;
    Expansion2(x);
    Expansion4(x);
    Expansion6(x);
    Expansion8(x);
    Places(2);
    Places(4);
    Places(6);
    Places(8);
  }

  /** Every box gets the expansion of the half, added to its own six bits of the key. */
  lemma RoundIs(t: Tables, key: seq<Byte>, r: nat, x: Word)
    requires t.Valid() && |key| == 8 && r < 16
    ensures F(t, x, RoundKey(t, key, r)) == Boxes(t, key, r, x)
  {
    hide RoundKey, Group, Expansion, Or8, XorW, Turn4, Field0, Field1, Field2, Field3, Spaced;
    RoundKeyIs(t, key, r);
    OddBoxes(x);
    EvenBoxes(x);
    BoxArgs(t, key, r, Turn4(x), 1, 3, 5, 7);
    BoxArgs(t, key, r, x, 2, 4, 6, 8);
  }

  lemma BoxArgs(t: Tables, key: seq<Byte>, r: nat, x: Word, a: nat, b: nat, c: nat, d: nat)
    requires t.Valid() && |key| == 8 && r < 16 && 1 <= a <= 8 && 1 <= b <= 8 && 1 <= c <= 8 && 1 <= d <= 8
    ensures var k := Spaced(Group(t, key, r, a), Group(t, key, r, b), Group(t, key, r, c), Group(t, key, r, d));
      && Field3(XorW(x, k)) == XorW(Field3(x), Group(t, key, r, a))
      && Field2(XorW(x, k)) == XorW(Field2(x), Group(t, key, r, b))
      && Field1(XorW(x, k)) == XorW(Field1(x), Group(t, key, r, c))
      && Field0(XorW(x, k)) == XorW(Field0(x), Group(t, key, r, d))
  {
    hide Group, XorW, Field0, Field1, Field2, Field3, Spaced;
    var k := Spaced(Group(t, key, r, a), Group(t, key, r, b), Group(t, key, r, c), Group(t, key, r, d));
    GroupSmall(t, key, r, a);
    GroupSmall(t, key, r, b);
    GroupSmall(t, key, r, c);
    GroupSmall(t, key, r, d);
    FieldsOf(Group(t, key, r, a), Group(t, key, r, b), Group(t, key, r, c), Group(t, key, r, d));
    Field0Xor(x, k);
    Field1Xor(x, k);
    Field2Xor(x, k);
    Field3Xor(x, k);
  }

  // ---------- The whole cipher ----------

  /** l and r hold the two halves of the block after the initial permutation. */
  ghost predicate Permuted(b: seq<Byte>, l: Word, r: Word)
    requires |b| == 8
  {
    forall j: nat :: j < 32 ==>
      Bit(l, Turned(j)) == BlockBit(b, IP(j)) && Bit(r, Turned(j)) == BlockBit(b, IP(32 + j))
  }

  /** Each word is made of the two before it. */
  ghost predicate Rounded(t: Tables, key: seq<Byte>, w: seq<Word>)
    requires t.Valid() && |key| == 8 && |w| == 18
  {
    forall r: nat :: r < 16 ==> w[r + 2] == XorW(w[r], Boxes(t, key, r, w[r + 1]))
  }

  /** w holds the two halves of the block, then what the sixteen rounds make. The last two are the permuted code, the
      last of all first. */
  ghost predicate Enciphering(t: Tables, key: seq<Byte>, inblock: seq<Byte>, code: seq<Byte>, w: seq<Word>)
    requires t.Valid() && |key| == 8 && |inblock| == 8 && |code| == 8
  {
    |w| == 18 && Permuted(inblock, w[0], w[1]) && Rounded(t, key, w) && Permuted(code, w[17], w[16])
  }

  /** code is what the standard makes of a block under a key with mirrored bytes. */
  ghost predicate Enciphers(t: Tables, key: seq<Byte>, inblock: seq<Byte>, code: seq<Byte>)
    requires t.Valid() && |key| == 8 && |inblock| == 8 && |code| == 8
  {
    exists w: seq<Word> :: Enciphering(t, key, inblock, code, w)
  }

  /** The right half after each number of rounds, and the left half before them all. */
  function Trace(t: Tables, keys: seq<Key>, h: Halves): (w: seq<Word>)
    ensures |w| == |keys| + 2
  {
    [h.l] + seq(|keys| + 1, n requires 0 <= n <= |keys| => Rounds(t, keys[..n], h).r)
  }

  lemma TraceAt(t: Tables, keys: seq<Key>, h: Halves, n: nat)
    requires n <= |keys|
    ensures Rounds(t, keys[..n], h) == Halves(Trace(t, keys, h)[n], Trace(t, keys, h)[n + 1])
  {
    hide F, XorW;
    if n > 0 {
      assert keys[..n][..n - 1] == keys[..n - 1];
    }
  }

  lemma TraceStep(t: Tables, keys: seq<Key>, h: Halves, n: nat)
    requires n < |keys|
    ensures var w := Trace(t, keys, h); w[n + 2] == XorW(w[n], F(t, w[n + 1], keys[n]))
  {
    hide F, XorW, Trace;
    TraceAt(t, keys, h, n);
    TraceAt(t, keys, h, n + 1);
    assert keys[..n + 1][..n] == keys[..n];
  }

  lemma CipherIs(t: Tables, key: seq<Byte>, inblock: seq<Byte>)
    requires t.Valid() && |key| == 8 && |inblock| == 8
    ensures Enciphers(t, key, inblock, Unscrunch(Cipher(t, RoundKeys(t, key), Scrunch(inblock))))
  {
    hide Initial, Final, Rounds, Scrunch, Unscrunch, RoundKey, F, XorW, Permuted, Trace, Boxes;
    var keys, h := RoundKeys(t, key), Initial(Scrunch(inblock));
    var w, out := Trace(t, keys, h), Cipher(t, keys, Scrunch(inblock));
    var code := Unscrunch(out);
    TraceAt(t, keys, h, 0);
    NoRounds(t, keys, h);
    Opened(inblock);
    forall r: nat | r < 16 ensures w[r + 2] == XorW(w[r], Boxes(t, key, r, w[r + 1])) {
      TraceStep(t, keys, h, r);
      RoundIs(t, key, r, w[r + 1]);
    }
    TraceAt(t, keys, h, 16);
    assert keys[..16] == keys;
    InitialFinal(Rounds(t, keys, h));
    ScrunchBack(code, out);
    Opened(code);
    assert Enciphering(t, key, inblock, code, w);
  }

  /** The opening swaps give the permuted halves of a block. */
  lemma Opened(b: seq<Byte>)
    requires |b| == 8
    ensures Permuted(b, Initial(Scrunch(b)).l, Initial(Scrunch(b)).r)
  {
    hide Initial, Scrunch, HalvesBit, BlockBit, Bit, IP, Turned;
    forall j: nat | j < 32
      ensures Bit(Initial(Scrunch(b)).l, Turned(j)) == BlockBit(b, IP(j))
      ensures Bit(Initial(Scrunch(b)).r, Turned(j)) == BlockBit(b, IP(32 + j))
    {
      InitialAt(Scrunch(b), j);
      ScrunchAt(b, IP(j));
      ScrunchAt(b, IP(32 + j));
    }
  }

  /** For every key and block: enciphering is the standard's, and deciphering undoes it. */
  method RoundTrip(t: Tables, key: seq<Byte>, inblock: seq<Byte>) returns (code: seq<Byte>, plain: seq<Byte>)
    requires t.Valid() && |key| == 8 && |inblock| == 8
    ensures |code| == 8 && Enciphers(t, key, inblock, code)
    ensures plain == inblock
  {
    hide Cipher, Reverse, Scrunch, Unscrunch, RoundKey, Enciphering;
    var kn := DesKey(t, key, false);
    var work := DesFunc(t, Scrunch(inblock), kn);
    code := Unscrunch(work);
    CipherIs(t, key, inblock);
    ScrunchBack(inblock, work);
    kn := DesKey(t, key, true);
    work := DesFunc(t, Scrunch(code), kn);
    plain := Unscrunch(work);
    CipherUndone(t, RoundKeys(t, key), Scrunch(inblock));
  }
}

/** Bytes as elements of GF(2^8), and words as columns of four bytes. */
module AesField {
  type Byte = bv8
  type Word = bv32

  /** Addition in GF(2^8). */
  function Plus(x: Byte, y: Byte): Byte { x ^ y }

  /** Multiplication by x, as in section 4.2.1 of FIPS 197, with the reduction by 0x1b written out in shifts. */
  function XTime(x: Byte): Byte {
    var h := x >> 7;
    (x << 1) ^ h ^ (h << 1) ^ (h << 3) ^ (h << 4)
  }

  function Plus3(x: Byte, y: Byte, z: Byte): Byte { Plus(Plus(x, y), z) }
  function Plus4(x: Byte, y: Byte, z: Byte, w: Byte): Byte { Plus(Plus3(x, y, z), w) }

  /** The multiples MixColumns and its inverse need. */
  function Mul3(x: Byte): Byte { Plus(XTime(x), x) }
  function Mul9(x: Byte): Byte { Plus(XTime(XTime(XTime(x))), x) }
  function MulB(x: Byte): Byte { Plus3(XTime(XTime(XTime(x))), XTime(x), x) }
  function MulD(x: Byte): Byte { Plus3(XTime(XTime(XTime(x))), XTime(XTime(x)), x) }
  function MulE(x: Byte): Byte { Plus3(XTime(XTime(XTime(x))), XTime(XTime(x)), XTime(x)) }

  // ---------- Linearity ----------

  lemma XTimeLinear(x: Byte, y: Byte)
    ensures XTime(Plus(x, y)) == Plus(XTime(x), XTime(y))
  {
  }

  lemma XTime2Linear(x: Byte, y: Byte)
    ensures XTime(XTime(Plus(x, y))) == Plus(XTime(XTime(x)), XTime(XTime(y)))
  {
    hide XTime, Plus;
    XTimeLinear(x, y);
    XTimeLinear(XTime(x), XTime(y));
  }

  lemma XTime3Linear(x: Byte, y: Byte)
    ensures XTime(XTime(XTime(Plus(x, y)))) == Plus(XTime(XTime(XTime(x))), XTime(XTime(XTime(y))))
  {
    hide XTime, Plus;
    XTime2Linear(x, y);
    XTimeLinear(XTime(XTime(x)), XTime(XTime(y)));
  }

  lemma PlusComm(x: Byte, y: Byte)
    ensures Plus(x, y) == Plus(y, x)
  {
  }

  lemma PlusAssoc(x: Byte, y: Byte, z: Byte)
    ensures Plus(Plus(x, y), z) == Plus(x, Plus(y, z))
  {
  }

  lemma Shuffle2(p: Byte, q: Byte, r: Byte, s: Byte)
    ensures Plus(Plus(p, q), Plus(r, s)) == Plus(Plus(p, r), Plus(q, s))
  {
    hide Plus;
    PlusAssoc(p, q, Plus(r, s));
    PlusAssoc(q, r, s);
    PlusComm(q, r);
    PlusAssoc(r, q, s);
    PlusAssoc(p, r, Plus(q, s));
  }

  lemma Shuffle3(p: Byte, q: Byte, r: Byte, s: Byte, t: Byte, u: Byte)
    ensures Plus3(Plus(p, q), Plus(r, s), Plus(t, u)) == Plus(Plus3(p, r, t), Plus3(q, s, u))
  {
    hide Plus;
    Shuffle2(p, q, r, s);
    Shuffle2(Plus(p, r), Plus(q, s), t, u);
  }

  lemma Shuffle4(p: Byte, q: Byte, r: Byte, s: Byte, t: Byte, u: Byte, v: Byte, w: Byte)
    ensures Plus4(Plus(p, q), Plus(r, s), Plus(t, u), Plus(v, w)) == Plus(Plus4(p, r, t, v), Plus4(q, s, u, w))
  {
    hide Plus, Plus3;
    Shuffle3(p, q, r, s, t, u);
    Shuffle2(Plus3(p, r, t), Plus3(q, s, u), v, w);
  }

  lemma Rotate(a: Byte, b: Byte, c: Byte, d: Byte)
    ensures Plus4(b, c, d, a) == Plus4(a, b, c, d)
  {
    hide Plus;
    PlusComm(Plus3(b, c, d), a);
    PlusAssoc(a, Plus(b, c), d);
    PlusAssoc(a, b, c);
  }

  lemma Mul9Linear(x: Byte, y: Byte)
    ensures Mul9(Plus(x, y)) == Plus(Mul9(x), Mul9(y))
  {
    hide XTime, Plus;
    XTime3Linear(x, y);
    Shuffle2(XTime(XTime(XTime(x))), XTime(XTime(XTime(y))), x, y);
  }

  lemma MulBLinear(x: Byte, y: Byte)
    ensures MulB(Plus(x, y)) == Plus(MulB(x), MulB(y))
  {
    hide XTime, Plus, Plus3;
    XTime3Linear(x, y);
    XTimeLinear(x, y);
    Shuffle3(XTime(XTime(XTime(x))), XTime(XTime(XTime(y))), XTime(x), XTime(y), x, y);
  }

  lemma MulDLinear(x: Byte, y: Byte)
    ensures MulD(Plus(x, y)) == Plus(MulD(x), MulD(y))
  {
    hide XTime, Plus, Plus3;
    XTime3Linear(x, y);
    XTime2Linear(x, y);
    Shuffle3(XTime(XTime(XTime(x))), XTime(XTime(XTime(y))), XTime(XTime(x)), XTime(XTime(y)), x, y);
  }

  lemma MulELinear(x: Byte, y: Byte)
    ensures MulE(Plus(x, y)) == Plus(MulE(x), MulE(y))
  {
    hide XTime, Plus, Plus3;
    XTime3Linear(x, y);
    XTime2Linear(x, y);
    XTimeLinear(x, y);
    Shuffle3(XTime(XTime(XTime(x))), XTime(XTime(XTime(y))), XTime(XTime(x)), XTime(XTime(y)), XTime(x), XTime(y));
  }

  // ---------- Columns ----------

  datatype Column = Column(a: Byte, b: Byte, c: Byte, d: Byte)

  function Xor(x: Column, y: Column): Column { Column(Plus(x.a, y.a), Plus(x.b, y.b), Plus(x.c, y.c), Plus(x.d, y.d)) }

  function MixRow(a: Byte, b: Byte, c: Byte, d: Byte): Byte { Plus4(XTime(a), Mul3(b), c, d) }

  /** Section 5.1.3 of FIPS 197: each row of the matrix is the one above it, turned by one. */
  function Mix(x: Column): Column {
    Column(MixRow(x.a, x.b, x.c, x.d), MixRow(x.b, x.c, x.d, x.a),
      MixRow(x.c, x.d, x.a, x.b), MixRow(x.d, x.a, x.b, x.c))
  }

  function InvRow(a: Byte, b: Byte, c: Byte, d: Byte): Byte { Plus4(MulE(a), MulB(b), MulD(c), Mul9(d)) }

  /** Section 5.3.3 of FIPS 197. */
  function InvMix(x: Column): Column {
    Column(InvRow(x.a, x.b, x.c, x.d), InvRow(x.b, x.c, x.d, x.a),
      InvRow(x.c, x.d, x.a, x.b), InvRow(x.d, x.a, x.b, x.c))
  }

  lemma InvRowLinear(a: Byte, b: Byte, c: Byte, d: Byte, e: Byte, f: Byte, g: Byte, h: Byte)
    ensures InvRow(Plus(a, e), Plus(b, f), Plus(c, g), Plus(d, h)) == Plus(InvRow(a, b, c, d), InvRow(e, f, g, h))
  {
    hide MulE, MulB, MulD, Mul9, Plus, Plus4;
    MulELinear(a, e);
    MulBLinear(b, f);
    MulDLinear(c, g);
    Mul9Linear(d, h);
    Shuffle4(MulE(a), MulE(e), MulB(b), MulB(f), MulD(c), MulD(g), Mul9(d), Mul9(h));
  }

  lemma InvMixLinear(x: Column, y: Column)
    ensures InvMix(Xor(x, y)) == Xor(InvMix(x), InvMix(y))
  {
    hide InvRow, Plus;
    InvRowLinear(x.a, x.b, x.c, x.d, y.a, y.b, y.c, y.d);
    InvRowLinear(x.b, x.c, x.d, x.a, y.b, y.c, y.d, y.a);
    InvRowLinear(x.c, x.d, x.a, x.b, y.c, y.d, y.a, y.b);
    InvRowLinear(x.d, x.a, x.b, x.c, y.d, y.a, y.b, y.c);
  }

  // The four products of a row of the inverse matrix with a column of the matrix: 1, 0, 0 and 0.

  lemma Product1(x: Byte)
    ensures Plus4(MulE(XTime(x)), MulB(x), MulD(x), Mul9(Mul3(x))) == x
  {
  }

  lemma Product2(x: Byte)
    ensures Plus4(MulE(Mul3(x)), MulB(XTime(x)), MulD(x), Mul9(x)) == 0
  {
  }

  lemma Product3(x: Byte)
    ensures Plus4(MulE(x), MulB(Mul3(x)), MulD(XTime(x)), Mul9(x)) == 0
  {
  }

  lemma Product4(x: Byte)
    ensures Plus4(MulE(x), MulB(x), MulD(Mul3(x)), Mul9(XTime(x))) == 0
  {
  }

  /** A multiple of a sum of four, term by term. */
  lemma LinearE(a: Byte, b: Byte, c: Byte, d: Byte)
    ensures MulE(Plus4(a, b, c, d)) == Plus4(MulE(a), MulE(b), MulE(c), MulE(d))
  {
    hide MulE, Plus;
    MulELinear(a, b);
    MulELinear(Plus(a, b), c);
    MulELinear(Plus3(a, b, c), d);
  }

  lemma LinearB(a: Byte, b: Byte, c: Byte, d: Byte)
    ensures MulB(Plus4(a, b, c, d)) == Plus4(MulB(a), MulB(b), MulB(c), MulB(d))
  {
    hide MulB, Plus;
    MulBLinear(a, b);
    MulBLinear(Plus(a, b), c);
    MulBLinear(Plus3(a, b, c), d);
  }

  lemma LinearD(a: Byte, b: Byte, c: Byte, d: Byte)
    ensures MulD(Plus4(a, b, c, d)) == Plus4(MulD(a), MulD(b), MulD(c), MulD(d))
  {
    hide MulD, Plus;
    MulDLinear(a, b);
    MulDLinear(Plus(a, b), c);
    MulDLinear(Plus3(a, b, c), d);
  }

  lemma Linear9(a: Byte, b: Byte, c: Byte, d: Byte)
    ensures Mul9(Plus4(a, b, c, d)) == Plus4(Mul9(a), Mul9(b), Mul9(c), Mul9(d))
  {
    hide Mul9, Plus;
    Mul9Linear(a, b);
    Mul9Linear(Plus(a, b), c);
    Mul9Linear(Plus3(a, b, c), d);
  }

  /** Four sums of four, added up column by column instead. */
  lemma Transpose(a1: Byte, b1: Byte, c1: Byte, d1: Byte, a2: Byte, b2: Byte, c2: Byte, d2: Byte,
                  a3: Byte, b3: Byte, c3: Byte, d3: Byte, a4: Byte, b4: Byte, c4: Byte, d4: Byte)
    ensures Plus4(Plus4(a1, b1, c1, d1), Plus4(b2, c2, d2, a2), Plus4(c3, d3, a3, b3), Plus4(d4, a4, b4, c4))
         == Plus4(Plus4(a1, a2, a3, a4), Plus4(b1, b2, b3, b4), Plus4(c1, c2, c3, c4), Plus4(d1, d2, d3, d4))
  {
    hide Plus;
    Rotate(a2, b2, c2, d2);
    Rotate(b3, c3, d3, a3);
    Rotate(a3, b3, c3, d3);
    Rotate(d4, a4, b4, c4);
    Rotate(c4, d4, a4, b4);
    Rotate(b4, c4, d4, a4);
    Rotate(a4, b4, c4, d4);
    Shuffle4(a1, a2, b1, b2, c1, c2, d1, d2);
    Shuffle4(Plus(a1, a2), a3, Plus(b1, b2), b3, Plus(c1, c2), c3, Plus(d1, d2), d3);
    Shuffle4(Plus3(a1, a2, a3), a4, Plus3(b1, b2, b3), b4, Plus3(c1, c2, c3), c4, Plus3(d1, d2, d3), d4);
  }

  lemma OneAndNothing(a: Byte)
    ensures Plus4(a, 0, 0, 0) == a
  {
  }

  lemma InvRowMix(a: Byte, b: Byte, c: Byte, d: Byte)
    ensures InvRow(MixRow(a, b, c, d), MixRow(b, c, d, a), MixRow(c, d, a, b), MixRow(d, a, b, c)) == a
  {
    hide MulE, MulB, MulD, Mul9, XTime, Mul3, Plus4;
    LinearE(XTime(a), Mul3(b), c, d);
    LinearB(XTime(b), Mul3(c), d, a);
    LinearD(XTime(c), Mul3(d), a, b);
    Linear9(XTime(d), Mul3(a), b, c);
    Transpose(MulE(XTime(a)), MulE(Mul3(b)), MulE(c), MulE(d), MulB(a), MulB(XTime(b)), MulB(Mul3(c)), MulB(d),
              MulD(a), MulD(b), MulD(XTime(c)), MulD(Mul3(d)), Mul9(Mul3(a)), Mul9(b), Mul9(c), Mul9(XTime(d)));
    Product1(a);
    Product2(b);
    Product3(c);
    Product4(d);
    OneAndNothing(a);
  }

  lemma InvMixMix(x: Column)
    ensures InvMix(Mix(x)) == x
  {
    hide InvRow, MixRow;
    InvRowMix(x.a, x.b, x.c, x.d);
    InvRowMix(x.b, x.c, x.d, x.a);
    InvRowMix(x.c, x.d, x.a, x.b);
    InvRowMix(x.d, x.a, x.b, x.c);
  }

  lemma XorTwice(x: Column, y: Column)
    ensures Xor(Xor(x, y), y) == x
  {
  }

  // ---------- Words ----------

  function XorW(v: Word, w: Word): Word { v ^ w }
  function XorW4(p: Word, q: Word, r: Word, s: Word): Word { XorW(XorW(XorW(p, q), r), s) }

  /** GETU32. */
  function Pack(x: Column): Word {
    XorW4((x.a as Word) << 24, (x.b as Word) << 16, (x.c as Word) << 8, x.d as Word)
  }

  function Byte0(w: Word): Byte { (w >> 24) as Byte }
  function Byte1(w: Word): Byte { ((w >> 16) & 0xff) as Byte }
  function Byte2(w: Word): Byte { ((w >> 8) & 0xff) as Byte }
  function Byte3(w: Word): Byte { (w & 0xff) as Byte }

  function Unpack(w: Word): Column { Column(Byte0(w), Byte1(w), Byte2(w), Byte3(w)) }

  lemma UnpackPack(x: Column)
    ensures Unpack(Pack(x)) == x
  {
  }

  lemma PackUnpack(w: Word)
    ensures Pack(Unpack(w)) == w
  {
  }

  lemma UnpackXor(v: Word, w: Word)
    ensures Unpack(XorW(v, w)) == Xor(Unpack(v), Unpack(w))
  {
  }

  // What masking a word of four equal bytes leaves.

  function Fill(p: Byte): Word { Pack(Column(p, p, p, p)) }

  lemma Mask0(p: Byte)
    ensures Fill(p) & 0xff00_0000 == (p as Word) << 24
  {
  }

  lemma Mask1(p: Byte)
    ensures Fill(p) & 0x00ff_0000 == (p as Word) << 16
  {
  }

  lemma Mask2(p: Byte)
    ensures Fill(p) & 0x0000_ff00 == (p as Word) << 8
  {
  }

  lemma Mask3(p: Byte)
    ensures Fill(p) & 0x0000_00ff == p as Word
  {
  }

  /** One byte from each of four words. */
  function Spread(p: Word, q: Word, r: Word, s: Word): Word {
    XorW4(p & 0xff00_0000, q & 0x00ff_0000, r & 0x0000_ff00, s & 0x0000_00ff)
  }

  lemma SpreadPack(p: Byte, q: Byte, r: Byte, s: Byte)
    ensures Spread(Fill(p), Fill(q), Fill(r), Fill(s)) == Pack(Column(p, q, r, s))
  {
    hide XorW4, Fill;
    Mask0(p);
    Mask1(q);
    Mask2(r);
    Mask3(s);
  }

  lemma Unpack5(p: Word, q: Word, r: Word, s: Word, k: Word)
    ensures Unpack(XorW(XorW4(p, q, r, s), k))
      == Xor(Xor(Xor(Xor(Unpack(p), Unpack(q)), Unpack(r)), Unpack(s)), Unpack(k))
  {
    hide Unpack, Xor, XorW;
    UnpackXor(p, q);
    UnpackXor(XorW(p, q), r);
    UnpackXor(XorW(XorW(p, q), r), s);
    UnpackXor(XorW4(p, q, r, s), k);
  }
}

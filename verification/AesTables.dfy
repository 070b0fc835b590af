/** The table-driven code: each lookup gives a whole column of the product. */
module AesTables {
  import opened AesField
  import opened AesCipher

  function Te0(sb: SBox, x: Byte): Word { var s := sb.s(x); Pack(Column(XTime(s), s, s, Mul3(s))) }
  function Te1(sb: SBox, x: Byte): Word { var s := sb.s(x); Pack(Column(Mul3(s), XTime(s), s, s)) }
  function Te2(sb: SBox, x: Byte): Word { var s := sb.s(x); Pack(Column(s, Mul3(s), XTime(s), s)) }
  function Te3(sb: SBox, x: Byte): Word { var s := sb.s(x); Pack(Column(s, s, Mul3(s), XTime(s))) }
  function Te4(sb: SBox, x: Byte): Word { var s := sb.s(x); Fill(s) }

  function Td0(sb: SBox, x: Byte): Word { var s := sb.si(x); Pack(Column(MulE(s), Mul9(s), MulD(s), MulB(s))) }
  function Td1(sb: SBox, x: Byte): Word { var s := sb.si(x); Pack(Column(MulB(s), MulE(s), Mul9(s), MulD(s))) }
  function Td2(sb: SBox, x: Byte): Word { var s := sb.si(x); Pack(Column(MulD(s), MulB(s), MulE(s), Mul9(s))) }
  function Td3(sb: SBox, x: Byte): Word { var s := sb.si(x); Pack(Column(Mul9(s), MulD(s), MulB(s), MulE(s))) }
  function Td4(sb: SBox, x: Byte): Word { var s := sb.si(x); Fill(s) }

  datatype Words = Words(w0: Word, w1: Word, w2: Word, w3: Word)

  function StateOf(w: Words): State { State(Unpack(w.w0), Unpack(w.w1), Unpack(w.w2), Unpack(w.w3)) }

  // ---------- One column ----------

  function TeWord(sb: SBox, p: Byte, q: Byte, r: Byte, s: Byte, k: Word): Word {
    XorW(XorW4(Te0(sb, p), Te1(sb, q), Te2(sb, r), Te3(sb, s)), k)
  }

  function TdWord(sb: SBox, p: Byte, q: Byte, r: Byte, s: Byte, k: Word): Word {
    XorW(XorW4(Td0(sb, p), Td1(sb, q), Td2(sb, r), Td3(sb, s)), k)
  }

  /** Four columns of the MixColumns matrix add up to the product. */
  lemma MixSum(p: Byte, q: Byte, r: Byte, s: Byte)
    ensures Xor(Xor(Xor(Column(XTime(p), p, p, Mul3(p)), Column(Mul3(q), XTime(q), q, q)),
      Column(r, Mul3(r), XTime(r), r)), Column(s, s, Mul3(s), XTime(s)))
         == Mix(Column(p, q, r, s))
  {
    hide Plus, XTime, Mul3;
    Rotate(p, XTime(q), Mul3(r), s);
    Rotate(q, XTime(r), Mul3(s), p);
    Rotate(p, q, XTime(r), Mul3(s));
    Rotate(XTime(s), Mul3(p), q, r);
  }

  lemma InvMixSum(p: Byte, q: Byte, r: Byte, s: Byte)
    ensures Xor(Xor(Xor(Column(MulE(p), Mul9(p), MulD(p), MulB(p)), Column(MulB(q), MulE(q), Mul9(q), MulD(q))),
      Column(MulD(r), MulB(r), MulE(r), Mul9(r))), Column(Mul9(s), MulD(s), MulB(s), MulE(s)))
         == InvMix(Column(p, q, r, s))
  {
    hide Plus, MulE, MulB, MulD, Mul9;
    Rotate(Mul9(p), MulE(q), MulB(r), MulD(s));
    Rotate(Mul9(q), MulE(r), MulB(s), MulD(p));
    Rotate(MulD(p), Mul9(q), MulE(r), MulB(s));
    Rotate(MulE(s), MulB(p), MulD(q), Mul9(r));
  }

  lemma TeWordIs(sb: SBox, p: Byte, q: Byte, r: Byte, s: Byte, k: Word)
    ensures Unpack(TeWord(sb, p, q, r, s, k)) == Xor(Mix(SubColumn(sb.s, Column(p, q, r, s))), Unpack(k))
  {
    hide Unpack, Xor, XorW, XorW4, Pack, Mix, XTime, Mul3;
    var x, y, z, w := sb.s(p), sb.s(q), sb.s(r), sb.s(s);
    Unpack5(Te0(sb, p), Te1(sb, q), Te2(sb, r), Te3(sb, s), k);
    UnpackPack(Column(XTime(x), x, x, Mul3(x)));
    UnpackPack(Column(Mul3(y), XTime(y), y, y));
    UnpackPack(Column(z, Mul3(z), XTime(z), z));
    UnpackPack(Column(w, w, Mul3(w), XTime(w)));
    MixSum(x, y, z, w);
  }

  lemma TdWordIs(sb: SBox, p: Byte, q: Byte, r: Byte, s: Byte, k: Word)
    ensures Unpack(TdWord(sb, p, q, r, s, k)) == Xor(InvMix(SubColumn(sb.si, Column(p, q, r, s))), Unpack(k))
  {
    hide Unpack, Xor, XorW, XorW4, Pack, InvMix, MulE, MulB, MulD, Mul9;
    var x, y, z, w := sb.si(p), sb.si(q), sb.si(r), sb.si(s);
    Unpack5(Td0(sb, p), Td1(sb, q), Td2(sb, r), Td3(sb, s), k);
    UnpackPack(Column(MulE(x), Mul9(x), MulD(x), MulB(x)));
    UnpackPack(Column(MulB(y), MulE(y), Mul9(y), MulD(y)));
    UnpackPack(Column(MulD(z), MulB(z), MulE(z), Mul9(z)));
    UnpackPack(Column(Mul9(w), MulD(w), MulB(w), MulE(w)));
    InvMixSum(x, y, z, w);
  }

  // ---------- One round ----------

  /** The four lines of a full round. */
  function TeRound(sb: SBox, s: Words, k: Words): Words {
    Words(TeWord(sb, Byte0(s.w0), Byte1(s.w1), Byte2(s.w2), Byte3(s.w3), k.w0),
          TeWord(sb, Byte0(s.w1), Byte1(s.w2), Byte2(s.w3), Byte3(s.w0), k.w1),
          TeWord(sb, Byte0(s.w2), Byte1(s.w3), Byte2(s.w0), Byte3(s.w1), k.w2),
          TeWord(sb, Byte0(s.w3), Byte1(s.w0), Byte2(s.w1), Byte3(s.w2), k.w3))
  }

  function TdRound(sb: SBox, s: Words, k: Words): Words {
    Words(TdWord(sb, Byte0(s.w0), Byte1(s.w3), Byte2(s.w2), Byte3(s.w1), k.w0),
          TdWord(sb, Byte0(s.w1), Byte1(s.w0), Byte2(s.w3), Byte3(s.w2), k.w1),
          TdWord(sb, Byte0(s.w2), Byte1(s.w1), Byte2(s.w0), Byte3(s.w3), k.w2),
          TdWord(sb, Byte0(s.w3), Byte1(s.w2), Byte2(s.w1), Byte3(s.w0), k.w3))
  }

  function TeLastWord(sb: SBox, p: Byte, q: Byte, r: Byte, s: Byte, k: Word): Word {
    XorW(Spread(Te4(sb, p), Te4(sb, q), Te4(sb, r), Te4(sb, s)), k)
  }

  function TdLastWord(sb: SBox, p: Byte, q: Byte, r: Byte, s: Byte, k: Word): Word {
    XorW(Spread(Td4(sb, p), Td4(sb, q), Td4(sb, r), Td4(sb, s)), k)
  }

  /** The last round has no MixColumns. */
  function TeLast(sb: SBox, s: Words, k: Words): Words {
    Words(TeLastWord(sb, Byte0(s.w0), Byte1(s.w1), Byte2(s.w2), Byte3(s.w3), k.w0),
          TeLastWord(sb, Byte0(s.w1), Byte1(s.w2), Byte2(s.w3), Byte3(s.w0), k.w1),
          TeLastWord(sb, Byte0(s.w2), Byte1(s.w3), Byte2(s.w0), Byte3(s.w1), k.w2),
          TeLastWord(sb, Byte0(s.w3), Byte1(s.w0), Byte2(s.w1), Byte3(s.w2), k.w3))
  }

  function TdLast(sb: SBox, s: Words, k: Words): Words {
    Words(TdLastWord(sb, Byte0(s.w0), Byte1(s.w3), Byte2(s.w2), Byte3(s.w1), k.w0),
          TdLastWord(sb, Byte0(s.w1), Byte1(s.w0), Byte2(s.w3), Byte3(s.w2), k.w1),
          TdLastWord(sb, Byte0(s.w2), Byte1(s.w1), Byte2(s.w0), Byte3(s.w3), k.w2),
          TdLastWord(sb, Byte0(s.w3), Byte1(s.w2), Byte2(s.w1), Byte3(s.w0), k.w3))
  }

  lemma TeRoundIs(sb: SBox, s: Words, k: Words)
    ensures StateOf(TeRound(sb, s, k)) == AddKey(MixAll(Shift(Sub(sb.s, StateOf(s)))), StateOf(k))
  {
    hide TeWord, Mix, Xor, Byte0, Byte1, Byte2, Byte3;
    TeWordIs(sb, Byte0(s.w0), Byte1(s.w1), Byte2(s.w2), Byte3(s.w3), k.w0);
    TeWordIs(sb, Byte0(s.w1), Byte1(s.w2), Byte2(s.w3), Byte3(s.w0), k.w1);
    TeWordIs(sb, Byte0(s.w2), Byte1(s.w3), Byte2(s.w0), Byte3(s.w1), k.w2);
    TeWordIs(sb, Byte0(s.w3), Byte1(s.w0), Byte2(s.w1), Byte3(s.w2), k.w3);
  }

  lemma TdRoundIs(sb: SBox, s: Words, k: Words)
    ensures StateOf(TdRound(sb, s, k)) == AddKey(InvMixAll(InvShift(Sub(sb.si, StateOf(s)))), StateOf(k))
  {
    hide TdWord, InvMix, Xor, Byte0, Byte1, Byte2, Byte3;
    TdWordIs(sb, Byte0(s.w0), Byte1(s.w3), Byte2(s.w2), Byte3(s.w1), k.w0);
    TdWordIs(sb, Byte0(s.w1), Byte1(s.w0), Byte2(s.w3), Byte3(s.w2), k.w1);
    TdWordIs(sb, Byte0(s.w2), Byte1(s.w1), Byte2(s.w0), Byte3(s.w3), k.w2);
    TdWordIs(sb, Byte0(s.w3), Byte1(s.w2), Byte2(s.w1), Byte3(s.w0), k.w3);
  }

  lemma LastWordIs(f: Byte -> Byte, p: Byte, q: Byte, r: Byte, s: Byte, k: Word)
    ensures Unpack(XorW(Spread(Fill(f(p)), Fill(f(q)), Fill(f(r)), Fill(f(s))), k))
      == Xor(SubColumn(f, Column(p, q, r, s)), Unpack(k))
  {
    hide Unpack, Xor, Pack, Spread, XorW, Fill;
    var c := Column(f(p), f(q), f(r), f(s));
    SpreadPack(f(p), f(q), f(r), f(s));
    UnpackXor(Pack(c), k);
    UnpackPack(c);
  }

  lemma TeLastIs(sb: SBox, s: Words, k: Words)
    ensures StateOf(TeLast(sb, s, k)) == AddKey(Shift(Sub(sb.s, StateOf(s))), StateOf(k))
  {
    hide Spread, Pack, Xor, XorW, Fill, Byte0, Byte1, Byte2, Byte3;
    LastWordIs(sb.s, Byte0(s.w0), Byte1(s.w1), Byte2(s.w2), Byte3(s.w3), k.w0);
    LastWordIs(sb.s, Byte0(s.w1), Byte1(s.w2), Byte2(s.w3), Byte3(s.w0), k.w1);
    LastWordIs(sb.s, Byte0(s.w2), Byte1(s.w3), Byte2(s.w0), Byte3(s.w1), k.w2);
    LastWordIs(sb.s, Byte0(s.w3), Byte1(s.w0), Byte2(s.w1), Byte3(s.w2), k.w3);
  }

  lemma TdLastIs(sb: SBox, s: Words, k: Words)
    ensures StateOf(TdLast(sb, s, k)) == AddKey(InvShift(Sub(sb.si, StateOf(s))), StateOf(k))
  {
    hide Spread, Pack, Xor, XorW, Fill, Byte0, Byte1, Byte2, Byte3;
    LastWordIs(sb.si, Byte0(s.w0), Byte1(s.w3), Byte2(s.w2), Byte3(s.w1), k.w0);
    LastWordIs(sb.si, Byte0(s.w1), Byte1(s.w0), Byte2(s.w3), Byte3(s.w2), k.w1);
    LastWordIs(sb.si, Byte0(s.w2), Byte1(s.w1), Byte2(s.w0), Byte3(s.w3), k.w2);
    LastWordIs(sb.si, Byte0(s.w3), Byte1(s.w2), Byte2(s.w1), Byte3(s.w0), k.w3);
  }
}

/** The cipher and the key expansion as FIPS 197 words them: byte by byte, with rows, columns and products. */
module AesStandard {
  import opened AesField
  import opened AesCipher
  import opened AesCode
  import opened AesKeys

  // ---------- Bytes of the state ----------

  function Row(x: Column, r: nat): Byte
    requires r < 4
  {
    if r == 0 then x.a else if r == 1 then x.b else if r == 2 then x.c else x.d
  }

  /** The byte in row r and column c. */
  function At(x: State, r: nat, c: nat): Byte
    requires r < 4 && c < 4
  {
    Row(if c == 0 then x.c0 else if c == 1 then x.c1 else if c == 2 then x.c2 else x.c3, r)
  }

  /** Section 3.4: the block goes in and comes out column by column. */
  lemma BlockAt(b: seq<Byte>, r: nat, c: nat)
    requires |b| == 16 && r < 4 && c < 4
    ensures At(Block(b), r, c) == b[r + 4 * c]
  {
  }

  // ---------- Products in GF(2^8) ----------

  /** Section 4.2.1: multiplication by x, modulo x^8 + x^4 + x^3 + x + 1. */
  lemma XTimeReduces(x: Byte)
    ensures XTime(x) == (x << 1) ^ (if x & 0x80 != 0 then 0x1b else 0)
  {
  }

  /** The product of x and the polynomial whose coefficients are the bits of n. */
  function Times(n: nat, x: Byte): Byte {
    if n == 0 then 0 else if n % 2 == 1 then Plus(x, Times(n / 2, XTime(x))) else Times(n / 2, XTime(x))
  }

  lemma TimesNone(x: Byte)
    ensures Times(0, x) == 0 && Plus(x, 0) == x
  {
  }

  lemma TimesStep(n: nat, x: Byte)
    requires n > 0
    ensures Times(n, x) == if n % 2 == 1 then Plus(x, Times(n / 2, XTime(x))) else Times(n / 2, XTime(x))
  {
  }

  lemma Times1(x: Byte)
    ensures Times(1, x) == x
  {
    hide Times, Plus, XTime;
    TimesStep(1, x);
    TimesNone(XTime(x));
    TimesNone(x);
  }

  lemma Times2(x: Byte)
    ensures Times(2, x) == XTime(x)
  {
    hide Times, Plus, XTime;
    TimesStep(2, x);
    Times1(XTime(x));
  }

  lemma Times3(x: Byte)
    ensures Times(3, x) == Mul3(x)
  {
    hide Times, Plus, XTime;
    TimesStep(3, x);
    Times1(XTime(x));
    PlusComm(x, XTime(x));
  }

  // ---------- A round ----------

  /** The matrix of section 5.1.3: its first row, which each further row turns by one. */
  const MATRIX: seq<nat> := [2, 3, 1, 1]

  /** Row r of the matrix times the column whose bytes are a, b, c and d. */
  function Product(r: nat, a: Byte, b: Byte, c: Byte, d: Byte): Byte
    requires r < 4
  {
    Plus4(Times(MATRIX[(4 - r) % 4], a), Times(MATRIX[(5 - r) % 4], b),
          Times(MATRIX[(6 - r) % 4], c), Times(MATRIX[(7 - r) % 4], d))
  }

  lemma MixAt(x: Column, r: nat)
    requires r < 4
    ensures Row(Mix(x), r) == Product(r, x.a, x.b, x.c, x.d)
  {
    hide Times, Plus4, XTime, Mul3;
    MixProducts(x.a);
    MixProducts(x.b);
    MixProducts(x.c);
    MixProducts(x.d);
    if r == 1 {
      Rotate(x.a, XTime(x.b), Mul3(x.c), x.d);
    } else if r == 2 {
      Rotate(x.b, XTime(x.c), Mul3(x.d), x.a);
      Rotate(x.a, x.b, XTime(x.c), Mul3(x.d));
    } else if r == 3 {
      Rotate(XTime(x.d), Mul3(x.a), x.b, x.c);
    }
  }

  lemma MixProducts(x: Byte)
    ensures Times(1, x) == x && Times(2, x) == XTime(x) && Times(3, x) == Mul3(x)
  {
    hide Times, XTime, Mul3;
    Times1(x);
    Times2(x);
    Times3(x);
  }

  /** Section 5.1.2: row r moves by r columns. */
  lemma ShiftAt(x: State, r: nat, c: nat)
    requires r < 4 && c < 4
    ensures At(Shift(x), r, c) == At(x, r, (c + r) % 4)
  {
  }

  lemma SubAt(f: Byte -> Byte, x: State, r: nat, c: nat)
    requires r < 4 && c < 4
    ensures At(Sub(f, x), r, c) == f(At(x, r, c))
  {
  }

  lemma AddAt(x: State, k: State, r: nat, c: nat)
    requires r < 4 && c < 4
    ensures At(AddKey(x, k), r, c) == Plus(At(x, r, c), At(k, r, c))
  {
    hide Plus;
  }

  lemma MixAllAt(x: State, r: nat, c: nat)
    requires r < 4 && c < 4
    ensures At(MixAll(x), r, c) == Product(r, At(x, 0, c), At(x, 1, c), At(x, 2, c), At(x, 3, c))
  {
    hide Mix, Product, Row;
    RowsOf(x.c0);
    RowsOf(x.c1);
    RowsOf(x.c2);
    RowsOf(x.c3);
    MixAt(if c == 0 then x.c0 else if c == 1 then x.c1 else if c == 2 then x.c2 else x.c3, r);
  }

  lemma RowsOf(x: Column)
    ensures Row(x, 0) == x.a && Row(x, 1) == x.b && Row(x, 2) == x.c && Row(x, 3) == x.d
  {
  }

  lemma SubShiftAt(f: Byte -> Byte, x: State, r: nat, c: nat)
    requires r < 4 && c < 4
    ensures At(Shift(Sub(f, x)), r, c) == f(At(x, r, (c + r) % 4))
  {
    hide At, Shift, Sub;
    ShiftAt(Sub(f, x), r, c);
    SubAt(f, x, r, (c + r) % 4);
  }

  /** Section 5.1: byte (r, c) after round i, from the bytes before it. Row j of a column comes from j columns on. */
  lemma RoundAt(sb: SBox, keys: seq<State>, x: State, i: nat, r: nat, c: nat)
    requires 0 < i < |keys| && r < 4 && c < 4
    ensures var y := Rounds(sb, keys, x, i - 1);
      At(Rounds(sb, keys, x, i), r, c)
      == Plus(Product(r, sb.s(At(y, 0, c)), sb.s(At(y, 1, (c + 1) % 4)),
                         sb.s(At(y, 2, (c + 2) % 4)), sb.s(At(y, 3, (c + 3) % 4))), At(keys[i], r, c))
  {
    hide At, Shift, Sub, MixAll, AddKey, Product, Plus;
    var y := Rounds(sb, keys, x, i - 1);
    var z := Shift(Sub(sb.s, y));
    SubShiftAt(sb.s, y, 0, c);
    SubShiftAt(sb.s, y, 1, c);
    SubShiftAt(sb.s, y, 2, c);
    SubShiftAt(sb.s, y, 3, c);
    assert c % 4 == c;
    MixAllAt(z, r, c);
    AddAt(MixAll(z), keys[i], r, c);
  }

  /** Before the first round the key is added, in the last there is no product. */
  lemma EndsAt(sb: SBox, keys: seq<State>, x: State, r: nat, c: nat)
    requires |keys| >= 2 && r < 4 && c < 4
    ensures At(Rounds(sb, keys, x, 0), r, c) == Plus(At(x, r, c), At(keys[0], r, c))
    ensures At(Cipher(sb, keys, x), r, c)
      == Plus(sb.s(At(Rounds(sb, keys, x, |keys| - 2), r, (c + r) % 4)), At(keys[|keys| - 1], r, c))
  {
    hide At, Shift, Sub, AddKey, Plus;
    var y := Rounds(sb, keys, x, |keys| - 2);
    AddAt(x, keys[0], r, c);
    SubShiftAt(sb.s, y, r, c);
    AddAt(Shift(Sub(sb.s, y)), keys[|keys| - 1], r, c);
  }

  // ---------- Key expansion ----------

  const POWERS: seq<Byte> := [0x01, 0x02, 0x04, 0x08, 0x10, 0x20, 0x40, 0x80, 0x1b, 0x36]

  /** What is added to byte r of word i - nk, where `near` is word i - 1. */
  function AddedByte(sb: SBox, nk: nat, i: nat, near: Column, r: nat): Byte
    requires nk > 0 && nk <= i && i / nk <= 10 && r < 4
  {
    if i % nk == 0 then
      QuotientPositive(i, nk);
      Plus(sb.s(Row(near, (r + 1) % 4)), if r == 0 then POWERS[i / nk - 1] else 0)
    else if nk > 6 && i % nk == 4 then sb.s(Row(near, r))
    else Row(near, r)
  }

  /** Section 5.2: byte r of word i of the expanded key, for the ten round constants there are. */
  lemma ExpandedAt(sb: SBox, key: seq<Word>, i: nat, r: nat)
    requires |key| > 0 && r < 4 && i / |key| <= 10
    ensures Row(Unpack(Expanded(sb, key, i)), r)
      == if i < |key| then Row(Unpack(key[i]), r)
         else Plus(Row(Unpack(Expanded(sb, key, i - |key|)), r),
                   AddedByte(sb, |key|, i, Unpack(Expanded(sb, key, i - 1)), r))
  {
    hide Unpack, XorW, Plus, Added, AddedByte, Row;
    if i >= |key| {
      var far, near := Expanded(sb, key, i - |key|), Expanded(sb, key, i - 1);
      UnpackXor(far, Added(sb, |key|, i, near));
      XorRow(Unpack(far), Unpack(Added(sb, |key|, i, near)), r);
      AddedAt(sb, |key|, i, near, r);
    }
  }

  lemma XorRow(x: Column, y: Column, r: nat)
    requires r < 4
    ensures Row(Xor(x, y), r) == Plus(Row(x, r), Row(y, r))
  {
    hide Plus;
  }

  lemma AddedAt(sb: SBox, nk: nat, i: nat, near: Word, r: nat)
    requires nk > 0 && nk <= i && i / nk <= 10 && r < 4
    ensures Row(Unpack(Added(sb, nk, i, near)), r) == AddedByte(sb, nk, i, Unpack(near), r)
  {
    hide Unpack, Pack, Plus, RotWord, XorW, RconWord;
    if i % nk == 0 {
      QuotientPositive(i, nk);
      FirstAt(sb, near, i / nk - 1, r);
    } else {
      UnpackPack(SubColumn(sb.s, Unpack(near)));
    }
  }

  /** A word rotated, substituted and added to a round constant. */
  lemma FirstAt(sb: SBox, near: Word, i: nat, r: nat)
    requires i < 10 && r < 4
    ensures Row(Unpack(XorW(SubWord(sb, RotWord(near)), RconWord(i))), r)
      == Plus(sb.s(Row(Unpack(near), (r + 1) % 4)), if r == 0 then POWERS[i] else 0)
  {
    hide Unpack, Pack, Plus, XorW, Rcon, Xor;
    var x := Unpack(near);
    var y := Column(x.b, x.c, x.d, x.a);
    UnpackPack(y);
    UnpackPack(SubColumn(sb.s, y));
    UnpackPack(Column(Rcon(i), 0, 0, 0));
    UnpackXor(SubWord(sb, RotWord(near)), RconWord(i));
    XorRow(SubColumn(sb.s, y), Column(Rcon(i), 0, 0, 0), r);
    PowersAre(i);
  }

  lemma QuotientPositive(i: nat, n: nat)
    requires 0 < n <= i
    ensures i / n > 0
  {
  }

  lemma PowersAre(i: nat)
    requires i < 10
    ensures POWERS[i] == Rcon(i)
  {
    if i > 0 {
      PowersAre(i - 1);
    }
  }

  /** The key itself goes in byte by byte. */
  lemma UserKeyAt(k: seq<Byte>, nk: nat, i: nat, r: nat)
    requires 4 * nk <= |k| && i < nk && r < 4
    ensures Row(Unpack(UserKey(k, nk)[i]), r) == k[4 * i + r]
  {
    hide Unpack, Pack;
    UnpackPack(ColumnAt(k, 4 * i));
  }
}

/** AES_set_encrypt_key and AES_set_decrypt_key. */
module AesKeys {
  import opened AesField
  import opened AesCipher
  import opened AesTables
  import opened AesCode

  const MAX_WORDS := 60
  const RCON: seq<Word> := [
    0x0100_0000, 0x0200_0000, 0x0400_0000, 0x0800_0000, 0x1000_0000,
    0x2000_0000, 0x4000_0000, 0x8000_0000, 0x1b00_0000, 0x3600_0000]

  // ---------- Section 5.2 of FIPS 197 ----------

  function SubWord(sb: SBox, w: Word): Word { Pack(SubColumn(sb.s, Unpack(w))) }

  function RotWord(w: Word): Word {
    var c := Unpack(w);
    Pack(Column(c.b, c.c, c.d, c.a))
  }

  /** The powers of x. */
  function Rcon(i: nat): Byte { if i == 0 then 1 else XTime(Rcon(i - 1)) }

  function RconWord(i: nat): Word { Pack(Column(Rcon(i), 0, 0, 0)) }

  /** What word i adds to word i - |key|, given word i - 1. */
  function Added(sb: SBox, nk: nat, i: nat, temp: Word): Word
    requires nk > 0 && i >= nk
  {
    if i % nk == 0 then XorW(SubWord(sb, RotWord(temp)), RconWord(i / nk - 1))
    else if nk > 6 && i % nk == 4 then SubWord(sb, temp)
    else temp
  }

  /** Word i of the expanded key. */
  function Expanded(sb: SBox, key: seq<Word>, i: nat): Word
    requires |key| > 0
  {
    if i < |key| then key[i]
    else XorW(Expanded(sb, key, i - |key|), Added(sb, |key|, i, Expanded(sb, key, i - 1)))
  }

  /** The first n round keys: column j of round key r is word 4r + j of the expanded key. */
  function RoundKeys(sb: SBox, key: seq<Word>, n: nat): (keys: seq<State>)
    requires |key| > 0
    ensures |keys| == n
    ensures forall r :: 0 <= r < n ==>
      keys[r] == State(Unpack(Expanded(sb, key, 4 * r)), Unpack(Expanded(sb, key, 4 * r + 1)),
                       Unpack(Expanded(sb, key, 4 * r + 2)), Unpack(Expanded(sb, key, 4 * r + 3)))
  {
    seq(n, r requires 0 <= r < n =>
      State(Unpack(Expanded(sb, key, 4 * r)), Unpack(Expanded(sb, key, 4 * r + 1)),
            Unpack(Expanded(sb, key, 4 * r + 2)), Unpack(Expanded(sb, key, 4 * r + 3))))
  }

  // ---------- The code's words ----------

  /** The lookups that rotate and substitute at once. */
  function RotSub(sb: SBox, t: Word): Word {
    Spread(Te4(sb, Byte1(t)), Te4(sb, Byte2(t)), Te4(sb, Byte3(t)), Te4(sb, Byte0(t)))
  }

  function SubOnly(sb: SBox, t: Word): Word {
    Spread(Te4(sb, Byte0(t)), Te4(sb, Byte1(t)), Te4(sb, Byte2(t)), Te4(sb, Byte3(t)))
  }

  lemma RotSubIs(sb: SBox, t: Word)
    ensures RotSub(sb, t) == SubWord(sb, RotWord(t))
  {
    hide Spread, Pack, Fill, Byte0, Byte1, Byte2, Byte3;
    SpreadPack(sb.s(Byte1(t)), sb.s(Byte2(t)), sb.s(Byte3(t)), sb.s(Byte0(t)));
    UnpackPack(Column(Byte1(t), Byte2(t), Byte3(t), Byte0(t)));
  }

  lemma SubOnlyIs(sb: SBox, t: Word)
    ensures SubOnly(sb, t) == SubWord(sb, t)
  {
    hide Spread, Pack, Fill, Byte0, Byte1, Byte2, Byte3;
    SpreadPack(sb.s(Byte0(t)), sb.s(Byte1(t)), sb.s(Byte2(t)), sb.s(Byte3(t)));
  }

  lemma RconTable(i: nat)
    requires i < 10
    ensures RCON[i] == RconWord(i)
  {
    if i > 0 {
      RconTable(i - 1);
      RconStep(i);
    }
  }

  lemma RconStep(i: nat)
    requires 0 < i < 10
    ensures Rcon(i) == XTime(Rcon(i - 1))
  {
  }

  function UserKey(k: seq<Byte>, nk: nat): (r: seq<Word>)
    requires 4 * nk <= |k|
    ensures |r| == nk && forall i :: 0 <= i < nk ==> r[i] == Pack(ColumnAt(k, 4 * i))
  {
    seq(nk, i requires 0 <= i < nk => Pack(ColumnAt(k, 4 * i)))
  }

  /** The first n words are in place. */
  predicate Filled(sb: SBox, key: seq<Word>, rd: seq<Word>, n: nat) {
    |key| > 0 && n <= |rd| && forall j :: 0 <= j < n ==> rd[j] == Expanded(sb, key, j)
  }

  /** Put down word j. */
  method Put(sb: SBox, ghost key: seq<Word>, rd: array<Word>, nk: nat, j: nat, added: Word)
    requires |key| == nk > 0 && nk <= j < rd.Length && Filled(sb, key, rd[..], j)
    requires added == Added(sb, nk, j, Expanded(sb, key, j - 1))
    modifies rd
    ensures Filled(sb, key, rd[..], j + 1)
  {
    hide XorW, Added;
    ghost var before := rd[..];
    rd[j] := XorW(rd[j - nk], added);
    assert rd[..] == before[j := rd[j]];
    assert before[j - nk] == Expanded(sb, key, j - nk);
  }

  /** The word that follows a whole multiple of the key length. */
  method PutFirst(sb: SBox, ghost key: seq<Word>, rd: array<Word>, nk: nat, j: nat, i: nat)
    requires |key| == nk > 0 && nk <= j < rd.Length && Filled(sb, key, rd[..], j) && i < 10 && j % nk == 0
    requires j / nk == i + 1
    modifies rd
    ensures Filled(sb, key, rd[..], j + 1)
  {
    hide XorW, RotSub, SubWord, RotWord, RconWord, Expanded;
    var temp := rd[j - 1];
    assert rd[..][j - 1] == Expanded(sb, key, j - 1);
    RotSubIs(sb, temp);
    RconTable(i);
    Put(sb, key, rd, nk, j, XorW(RotSub(sb, temp), RCON[i]));
  }

  /** A word that only adds the one before it. */
  method PutNext(sb: SBox, ghost key: seq<Word>, rd: array<Word>, nk: nat, j: nat)
    requires |key| == nk > 0 && nk <= j < rd.Length && Filled(sb, key, rd[..], j) && j % nk != 0
    requires !(nk > 6 && j % nk == 4)
    modifies rd
    ensures Filled(sb, key, rd[..], j + 1)
  {
    assert rd[..][j - 1] == Expanded(sb, key, j - 1);
    Put(sb, key, rd, nk, j, rd[j - 1]);
  }

  /** Half way through a 256-bit key. */
  method PutMiddle(sb: SBox, ghost key: seq<Word>, rd: array<Word>, j: nat)
    requires |key| == 8 <= j < rd.Length && Filled(sb, key, rd[..], j) && j % 8 == 4
    modifies rd
    ensures Filled(sb, key, rd[..], j + 1)
  {
    hide XorW, SubOnly, SubWord, Expanded;
    assert rd[..][j - 1] == Expanded(sb, key, j - 1);
    SubOnlyIs(sb, rd[j - 1]);
    Put(sb, key, rd, 8, j, SubOnly(sb, rd[j - 1]));
  }

  method CopyKey(sb: SBox, userKey: seq<Byte>, nk: nat, rd: array<Word>)
    requires 0 < nk && 4 * nk <= |userKey| && nk <= rd.Length
    modifies rd
    ensures Filled(sb, UserKey(userKey, nk), rd[..], nk)
  {
    hide Pack;
    var i := 0;
    while i < nk
      invariant i <= nk && Filled(sb, UserKey(userKey, nk), rd[..], i)
    {
      rd[i] := Pack(ColumnAt(userKey, 4 * i));
      i := i + 1;
    }
  }

  method Expand128(sb: SBox, ghost key: seq<Word>, rd: array<Word>)
    requires |key| == 4 && rd.Length == MAX_WORDS && Filled(sb, key, rd[..], 4)
    modifies rd
    ensures Filled(sb, key, rd[..], 44)
  {
    hide Filled;
    var i := 0;
    while i < 10
      invariant i <= 10 && Filled(sb, key, rd[..], 4 * i + 4)
    {
      PutFirst(sb, key, rd, 4, 4 * i + 4, i);
      PutNext(sb, key, rd, 4, 4 * i + 5);
      PutNext(sb, key, rd, 4, 4 * i + 6);
      PutNext(sb, key, rd, 4, 4 * i + 7);
      i := i + 1;
    }
  }

  method Expand192(sb: SBox, ghost key: seq<Word>, rd: array<Word>)
    requires |key| == 6 && rd.Length == MAX_WORDS && Filled(sb, key, rd[..], 6)
    modifies rd
    ensures Filled(sb, key, rd[..], 52)
  {
    hide Filled;
    var i := 0;
    while true
      invariant i < 8 && Filled(sb, key, rd[..], 6 * i + 6)
      decreases 8 - i
    {
      PutFirst(sb, key, rd, 6, 6 * i + 6, i);
      PutNext(sb, key, rd, 6, 6 * i + 7);
      PutNext(sb, key, rd, 6, 6 * i + 8);
      PutNext(sb, key, rd, 6, 6 * i + 9);
      i := i + 1;
      if i == 8 {
        return;
      }
      PutNext(sb, key, rd, 6, 6 * i + 4);
      PutNext(sb, key, rd, 6, 6 * i + 5);
    }
  }

  method Expand256(sb: SBox, ghost key: seq<Word>, rd: array<Word>)
    requires |key| == 8 && rd.Length == MAX_WORDS && Filled(sb, key, rd[..], 8)
    modifies rd
    ensures Filled(sb, key, rd[..], 60)
  {
    hide Filled;
    var i := 0;
    while true
      invariant i < 7 && Filled(sb, key, rd[..], 8 * i + 8)
      decreases 7 - i
    {
      PutFirst(sb, key, rd, 8, 8 * i + 8, i);
      PutNext(sb, key, rd, 8, 8 * i + 9);
      PutNext(sb, key, rd, 8, 8 * i + 10);
      PutNext(sb, key, rd, 8, 8 * i + 11);
      i := i + 1;
      if i == 7 {
        return;
      }
      PutMiddle(sb, key, rd, 8 * i + 4);
      PutNext(sb, key, rd, 8, 8 * i + 5);
      PutNext(sb, key, rd, 8, 8 * i + 6);
      PutNext(sb, key, rd, 8, 8 * i + 7);
    }
  }

  predicate KeyBits(bits: int) { bits == 128 || bits == 192 || bits == 256 }

  /** A user key, or a null pointer. */
  datatype KeyBytes = Null | Given(bytes: seq<Byte>)

  method SetEncryptKey(sb: SBox, userKey: KeyBytes, bits: int, rd: array?<Word>) returns (status: int, rounds: nat)
    requires rd != null ==> rd.Length == MAX_WORDS
    requires userKey.Given? && KeyBits(bits) ==> |userKey.bytes| >= bits / 8
    modifies rd
    ensures status == if userKey.Null? || rd == null then -1
      else if bits != 128 && bits != 192 && bits != 256 then -2 else 0
    ensures status == 0 ==>
      rounds == bits / 32 + 6 && Filled(sb, UserKey(userKey.bytes, bits / 32), rd[..], 4 * (rounds + 1))
  {
    hide Filled, UserKey;
    rounds := 0;
    if userKey.Null? || rd == null {
      return -1, 0;
    }
    if !KeyBits(bits) {
      return -2, 0;
    }
    var key := userKey.bytes;
    rounds := if bits == 128 then 10 else if bits == 192 then 12 else 14;
    CopyKey(sb, key, bits / 32, rd);
    if bits == 128 {
      Expand128(sb, UserKey(key, 4), rd);
    } else if bits == 192 {
      Expand192(sb, UserKey(key, 6), rd);
    } else {
      Expand256(sb, UserKey(key, 8), rd);
    }
    status := 0;
  }

  // ---------- The decryption schedule ----------

  /** Swap round keys i and j. */
  method SwapKeys(rd: array<Word>, i: nat, j: nat)
    requires i < j && 4 * j + 4 <= rd.Length
    modifies rd
    ensures KeyWords(rd[..], i) == old(KeyWords(rd[..], j)) && KeyWords(rd[..], j) == old(KeyWords(rd[..], i))
    ensures forall x :: 0 <= x < rd.Length && x / 4 != i && x / 4 != j ==> rd[x] == old(rd[x])
  {
    rd[4 * i], rd[4 * j] := rd[4 * j], rd[4 * i];
    rd[4 * i + 1], rd[4 * j + 1] := rd[4 * j + 1], rd[4 * i + 1];
    rd[4 * i + 2], rd[4 * j + 2] := rd[4 * j + 2], rd[4 * i + 2];
    rd[4 * i + 3], rd[4 * j + 3] := rd[4 * j + 3], rd[4 * i + 3];
  }

  lemma OtherKeys(a: seq<Word>, b: seq<Word>, n: nat, skip: set<nat>)
    requires |a| == |b| && 4 * n <= |a| && forall x :: 0 <= x < |a| && x / 4 !in skip ==> b[x] == a[x]
    ensures forall u :: 0 <= u < n && u !in skip ==> KeyWords(b, u) == KeyWords(a, u)
  {
  }

  /** The round keys outside i .. j have changed places. */
  predicate Reversed(a: seq<Word>, b: seq<Word>, rounds: nat, i: nat, j: int) {
    && |a| == |b| && 4 * (rounds + 1) <= |a|
    && forall u :: 0 <= u <= rounds ==> KeyWords(b, u) == KeyWords(a, if u < i || u > j then rounds - u else u)
  }

  method ReverseKeys(rd: array<Word>, rounds: nat)
    requires 4 * (rounds + 1) <= rd.Length
    modifies rd
    ensures Reversed(old(rd[..]), rd[..], rounds, rounds + 1, rounds)
  {
    hide KeyWords, Reversed;
    ghost var a := rd[..];
    var i, j := 0, rounds;
    ReversedStart(a, rounds);
    while i < j
      invariant 0 <= i <= j + 1 && i + j == rounds && Reversed(a, rd[..], rounds, i, j)
    {
      ghost var b := rd[..];
      SwapKeys(rd, i, j);
      OtherKeys(b, rd[..], rounds + 1, {i, j});
      ReversedStep(a, b, rd[..], rounds, i, j);
      i, j := i + 1, j - 1;
    }
    ReversedEnd(a, rd[..], rounds, i, j);
  }

  lemma ReversedStart(a: seq<Word>, rounds: nat)
    requires 4 * (rounds + 1) <= |a|
    ensures Reversed(a, a, rounds, 0, rounds)
  {
  }

  lemma ReversedStep(a: seq<Word>, b: seq<Word>, c: seq<Word>, rounds: nat, i: nat, j: nat)
    requires Reversed(a, b, rounds, i, j) && i < j && i + j == rounds && |c| == |b|
    requires KeyWords(c, i) == KeyWords(b, j) && KeyWords(c, j) == KeyWords(b, i)
    requires forall u :: 0 <= u < rounds + 1 && u !in {i, j} ==> KeyWords(c, u) == KeyWords(b, u)
    ensures Reversed(a, c, rounds, i + 1, j - 1)
  {
    hide KeyWords;
    forall u | 0 <= u <= rounds
      ensures KeyWords(c, u) == KeyWords(a, if u < i + 1 || u > j - 1 then rounds - u else u)
    {
      assert KeyWords(b, u) == KeyWords(a, if u < i || u > j then rounds - u else u);
    }
  }

  lemma ReversedEnd(a: seq<Word>, b: seq<Word>, rounds: nat, i: nat, j: int)
    requires Reversed(a, b, rounds, i, j) && i + j == rounds && j <= i <= j + 1
    ensures Reversed(a, b, rounds, rounds + 1, rounds)
  {
    hide KeyWords;
    forall u | 0 <= u <= rounds ensures KeyWords(b, u) == KeyWords(a, rounds - u) {
      assert KeyWords(b, u) == KeyWords(a, if u < i || u > j then rounds - u else u);
    }
  }

  /** InvMixColumns by way of the decryption tables: the S-box undoes the inverse S-box in them. */
  function Unmix(sb: SBox, w: Word): Word {
    XorW4(Td0(sb, sb.s(Byte0(w))), Td1(sb, sb.s(Byte1(w))), Td2(sb, sb.s(Byte2(w))), Td3(sb, sb.s(Byte3(w))))
  }

  lemma UnmixIs(sb: SBox, w: Word)
    requires sb.Valid()
    ensures Unpack(Unmix(sb, w)) == InvMix(Unpack(w))
  {
    hide Pack, Xor, XorW, InvMix, Unpack, MulE, MulB, MulD, Mul9;
    var x, y, z, v := Byte0(w), Byte1(w), Byte2(w), Byte3(w);
    UnpackBytes(w);
    var p, q, r, s := Column(MulE(x), Mul9(x), MulD(x), MulB(x)), Column(MulB(y), MulE(y), Mul9(y),
      MulD(y)), Column(MulD(z), MulB(z), MulE(z), Mul9(z)), Column(Mul9(v), MulD(v), MulB(v), MulE(v));
    UnpackPack(p);
    UnpackPack(q);
    UnpackPack(r);
    UnpackPack(s);
    UnpackXor(Pack(p), Pack(q));
    UnpackXor(XorW(Pack(p), Pack(q)), Pack(r));
    UnpackXor(XorW(XorW(Pack(p), Pack(q)), Pack(r)), Pack(s));
    InvMixSum(x, y, z, v);
  }

  lemma UnpackBytes(w: Word)
    ensures Unpack(w) == Column(Byte0(w), Byte1(w), Byte2(w), Byte3(w))
  {
  }

  function UnmixWords(sb: SBox, k: Words): Words {
    Words(Unmix(sb, k.w0), Unmix(sb, k.w1), Unmix(sb, k.w2), Unmix(sb, k.w3))
  }

  lemma UnmixWordsIs(sb: SBox, k: Words)
    requires sb.Valid()
    ensures StateOf(UnmixWords(sb, k)) == InvMixAll(StateOf(k))
  {
    hide Unmix, InvMix, Unpack;
    UnmixIs(sb, k.w0);
    UnmixIs(sb, k.w1);
    UnmixIs(sb, k.w2);
    UnmixIs(sb, k.w3);
  }

  method UnmixKey(sb: SBox, rd: array<Word>, i: nat)
    requires 4 * i + 4 <= rd.Length
    modifies rd
    ensures KeyWords(rd[..], i) == UnmixWords(sb, old(KeyWords(rd[..], i)))
    ensures forall x :: 0 <= x < rd.Length && x / 4 != i ==> rd[x] == old(rd[x])
  {
    hide Unmix;
    rd[4 * i] := Unmix(sb, rd[4 * i]);
    rd[4 * i + 1] := Unmix(sb, rd[4 * i + 1]);
    rd[4 * i + 2] := Unmix(sb, rd[4 * i + 2]);
    rd[4 * i + 3] := Unmix(sb, rd[4 * i + 3]);
  }

  /** Round keys 1 .. i - 1 are transformed. */
  predicate Unmixed(sb: SBox, a: seq<Word>, b: seq<Word>, rounds: nat, i: nat) {
    && |a| == |b| && 4 * (rounds + 1) <= |a|
    && forall u :: 0 <= u <= rounds ==>
      KeyWords(b, u) == if 0 < u < i then UnmixWords(sb, KeyWords(a, u)) else KeyWords(a, u)
  }

  method UnmixKeys(sb: SBox, rd: array<Word>, rounds: nat)
    requires rounds > 0 && 4 * (rounds + 1) <= rd.Length
    modifies rd
    ensures Unmixed(sb, old(rd[..]), rd[..], rounds, rounds)
  {
    hide KeyWords, UnmixWords;
    ghost var a := rd[..];
    var i := 1;
    while i < rounds
      invariant 1 <= i <= rounds && Unmixed(sb, a, rd[..], rounds, i)
    {
      ghost var b := rd[..];
      UnmixKey(sb, rd, i);
      OtherKeys(b, rd[..], rounds + 1, {i});
      assert KeyWords(b, i) == KeyWords(a, i);
      i := i + 1;
    }
  }

  /** Reversed and transformed, the schedule is that of the equivalent inverse cipher. */
  lemma InvSchedule(sb: SBox, a: seq<Word>, b: seq<Word>, c: seq<Word>, rounds: nat)
    requires sb.Valid() && rounds > 0 && Reversed(a, b, rounds, rounds + 1, rounds) && Unmixed(sb, b, c, rounds, rounds)
    ensures KeyStates(c, rounds + 1) == InvKeys(KeyStates(a, rounds + 1))
  {
    hide KeyWords, UnmixWords, StateOf, InvMixAll, Unpack;
    var left, right := KeyStates(c, rounds + 1), InvKeys(KeyStates(a, rounds + 1));
    KeyStatesAll(a, rounds + 1);
    KeyStatesAll(c, rounds + 1);
    forall u | 0 <= u <= rounds ensures left[u] == right[u] {
      assert KeyWords(b, u) == KeyWords(a, rounds - u);
      UnmixWordsIs(sb, KeyWords(b, u));
    }
  }

  method SetDecryptKey(sb: SBox, userKey: KeyBytes, bits: int, rd: array?<Word>) returns (status: int, rounds: nat)
    requires sb.Valid() && (rd != null ==> rd.Length == MAX_WORDS)
    requires userKey.Given? && KeyBits(bits) ==> |userKey.bytes| >= bits / 8
    modifies rd
    ensures status == if userKey.Null? || rd == null then -1
      else if bits != 128 && bits != 192 && bits != 256 then -2 else 0
    ensures status == 0 ==> rounds == bits / 32 + 6
    ensures status == 0 ==>
      KeyStates(rd[..], rounds + 1) == InvKeys(RoundKeys(sb, UserKey(userKey.bytes, bits / 32), rounds + 1))
  {
    hide UserKey, Expanded, Reversed, Unmixed, InvKeys;
    status, rounds := SetEncryptKey(sb, userKey, bits, rd);
    if status < 0 {
      return;
    }
    ghost var a := rd[..];
    FilledSchedule(sb, UserKey(userKey.bytes, bits / 32), a, rounds);
    ReverseKeys(rd, rounds);
    ghost var b := rd[..];
    UnmixKeys(sb, rd, rounds);
    InvSchedule(sb, a, b, rd[..], rounds);
  }

  lemma FilledSchedule(sb: SBox, key: seq<Word>, rd: seq<Word>, rounds: nat)
    requires Filled(sb, key, rd, 4 * (rounds + 1))
    ensures KeyStates(rd, rounds + 1) == RoundKeys(sb, key, rounds + 1)
  {
    hide Expanded, Unpack;
    var left, right := KeyStates(rd, rounds + 1), RoundKeys(sb, key, rounds + 1);
    forall u | 0 <= u <= rounds ensures left[u] == right[u] {
      assert rd[4 * u] == Expanded(sb, key, 4 * u) && rd[4 * u + 1] == Expanded(sb, key, 4 * u + 1);
      assert rd[4 * u + 2] == Expanded(sb, key, 4 * u + 2) && rd[4 * u + 3] == Expanded(sb, key, 4 * u + 3);
    }
  }

  // ---------- Encrypt, then decrypt ----------

  /** For every key and block: what AES_encrypt makes under one schedule, AES_decrypt undoes under the other. */
  method RoundTrip(sb: SBox, userKey: seq<Byte>, bits: int, inp: seq<Byte>) returns (code: seq<Byte>, plain: seq<Byte>)
    requires sb.Valid() && KeyBits(bits) && |userKey| >= bits / 8 && |inp| == 16
    ensures |code| == 16
    ensures Block(code) == Cipher(sb, RoundKeys(sb, UserKey(userKey, bits / 32), bits / 32 + 7), Block(inp))
    ensures plain == inp
  {
    hide UserKey, Expanded, Cipher, InvCipher, InvKeys, Unpack, Block, Filled, KeyStates, RoundKeys;
    var rd := new Word[MAX_WORDS];
    var _, rounds := SetEncryptKey(sb, Given(userKey), bits, rd);
    FilledSchedule(sb, UserKey(userKey, bits / 32), rd[..], rounds);
    code := Encrypt(sb, inp, rd[..], rounds);
    var _, rounds2 := SetDecryptKey(sb, Given(userKey), bits, rd);
    plain := Decrypt(sb, code, rd[..], rounds2);
    InvCipherCipher(sb, RoundKeys(sb, UserKey(userKey, bits / 32), rounds + 1), Block(inp));
    BytesOfBlock(inp);
    BytesOfBlock(plain);
  }
}

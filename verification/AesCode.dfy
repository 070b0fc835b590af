/** AES_encrypt and AES_decrypt. */
module AesCode {
  import opened AesField
  import opened AesCipher
  import opened AesTables

  // ---------- Blocks and round keys ----------

  function ColumnAt(b: seq<Byte>, i: nat): Column
    requires i + 4 <= |b|
  {
    Column(b[i], b[i + 1], b[i + 2], b[i + 3])
  }

  function Block(b: seq<Byte>): State
    requires |b| == 16
  {
    State(ColumnAt(b, 0), ColumnAt(b, 4), ColumnAt(b, 8), ColumnAt(b, 12))
  }

  function ColumnBytes(x: Column): seq<Byte> { [x.a, x.b, x.c, x.d] }

  function BlockBytes(x: State): (b: seq<Byte>)
    ensures |b| == 16 && Block(b) == x
  {
    ColumnBytes(x.c0) + ColumnBytes(x.c1) + ColumnBytes(x.c2) + ColumnBytes(x.c3)
  }

  lemma BytesOfBlock(b: seq<Byte>)
    requires |b| == 16
    ensures BlockBytes(Block(b)) == b
  {
  }

  function GetWords(b: seq<Byte>): Words
    requires |b| == 16
  {
    Words(Pack(ColumnAt(b, 0)), Pack(ColumnAt(b, 4)), Pack(ColumnAt(b, 8)), Pack(ColumnAt(b, 12)))
  }

  lemma GetWordsIs(b: seq<Byte>)
    requires |b| == 16
    ensures StateOf(GetWords(b)) == Block(b)
  {
    hide Pack, Unpack;
    UnpackPack(ColumnAt(b, 0));
    UnpackPack(ColumnAt(b, 4));
    UnpackPack(ColumnAt(b, 8));
    UnpackPack(ColumnAt(b, 12));
  }

  function XorWords(x: Words, y: Words): Words {
    Words(XorW(x.w0, y.w0), XorW(x.w1, y.w1), XorW(x.w2, y.w2), XorW(x.w3, y.w3))
  }

  lemma XorWordsIs(x: Words, y: Words)
    ensures StateOf(XorWords(x, y)) == AddKey(StateOf(x), StateOf(y))
  {
    hide XorW, Unpack, Xor;
    UnpackXor(x.w0, y.w0);
    UnpackXor(x.w1, y.w1);
    UnpackXor(x.w2, y.w2);
    UnpackXor(x.w3, y.w3);
  }

  /** Round key i. */
  function KeyWords(rk: seq<Word>, i: nat): Words
    requires 4 * i + 4 <= |rk|
  {
    Words(rk[4 * i], rk[4 * i + 1], rk[4 * i + 2], rk[4 * i + 3])
  }

  /** The first n round keys, four words to each. */
  function KeyStates(rk: seq<Word>, n: nat): (r: seq<State>)
    requires 4 * n <= |rk|
    ensures |r| == n
    ensures forall i :: 0 <= i < n ==>
      r[i] == State(Unpack(rk[4 * i]), Unpack(rk[4 * i + 1]), Unpack(rk[4 * i + 2]), Unpack(rk[4 * i + 3]))
  {
    seq(n, i requires 0 <= i < n =>
      State(Unpack(rk[4 * i]), Unpack(rk[4 * i + 1]), Unpack(rk[4 * i + 2]), Unpack(rk[4 * i + 3])))
  }

  lemma KeyStatesAt(rk: seq<Word>, n: nat, i: nat)
    requires 4 * n <= |rk| && i < n
    ensures KeyStates(rk, n)[i] == StateOf(KeyWords(rk, i))
  {
    hide Unpack;
  }

  lemma KeyStatesAll(rk: seq<Word>, n: nat)
    requires 4 * n <= |rk|
    ensures forall i :: 0 <= i < n ==> KeyStates(rk, n)[i] == StateOf(KeyWords(rk, i))
  {
    hide Unpack, StateOf, KeyWords;
    forall i | 0 <= i < n ensures KeyStates(rk, n)[i] == StateOf(KeyWords(rk, i)) {
      KeyStatesAt(rk, n, i);
    }
  }

  // ---------- The ciphers ----------

  /** The table-driven encryption is the cipher of FIPS 197. */
  method Encrypt(sb: SBox, inp: seq<Byte>, rk: seq<Word>, rounds: nat) returns (out: seq<Byte>)
    requires |inp| == 16 && rounds >= 2 && rounds % 2 == 0 && 4 * (rounds + 1) <= |rk|
    ensures |out| == 16 && Block(out) == Cipher(sb, KeyStates(rk, rounds + 1), Block(inp))
  {
    hide KeyWords, Unpack, TeRound, TeLast, AddKey, MixAll, Shift, Sub, StateOf, GetWords, XorWords;
    ghost var keys, x := KeyStates(rk, rounds + 1), Block(inp);
    KeyStatesAll(rk, rounds + 1);
    GetWordsIs(inp);
    XorWordsIs(GetWords(inp), KeyWords(rk, 0));
    var s := XorWords(GetWords(inp), KeyWords(rk, 0));
    var r, p := rounds / 2, 0;
    var t := TeRound(sb, s, KeyWords(rk, 1));
    TeRoundIs(sb, s, KeyWords(rk, 1));
    while r > 1
      invariant 0 < r <= rounds / 2 && p == 2 * (rounds / 2 - r)
      invariant StateOf(t) == Rounds(sb, keys, x, p + 1)
    {
      p := p + 2;
      r := r - 1;
      s := TeRound(sb, t, KeyWords(rk, p));
      TeRoundIs(sb, t, KeyWords(rk, p));
      t := TeRound(sb, s, KeyWords(rk, p + 1));
      TeRoundIs(sb, s, KeyWords(rk, p + 1));
    }
    s := TeLast(sb, t, KeyWords(rk, p + 2));
    TeLastIs(sb, t, KeyWords(rk, p + 2));
    out := BlockBytes(StateOf(s));
  }

  /** The table-driven decryption is the equivalent inverse cipher. */
  method Decrypt(sb: SBox, inp: seq<Byte>, rk: seq<Word>, rounds: nat) returns (out: seq<Byte>)
    requires |inp| == 16 && rounds >= 2 && rounds % 2 == 0 && 4 * (rounds + 1) <= |rk|
    ensures |out| == 16 && Block(out) == InvCipher(sb, KeyStates(rk, rounds + 1), Block(inp))
  {
    hide KeyWords, Unpack, TdRound, TdLast, AddKey, InvMixAll, InvShift, Sub, StateOf, GetWords, XorWords;
    ghost var keys, x := KeyStates(rk, rounds + 1), Block(inp);
    KeyStatesAll(rk, rounds + 1);
    GetWordsIs(inp);
    XorWordsIs(GetWords(inp), KeyWords(rk, 0));
    var s := XorWords(GetWords(inp), KeyWords(rk, 0));
    var r, p := rounds / 2, 0;
    var t := TdRound(sb, s, KeyWords(rk, 1));
    TdRoundIs(sb, s, KeyWords(rk, 1));
    while r > 1
      invariant 0 < r <= rounds / 2 && p == 2 * (rounds / 2 - r)
      invariant StateOf(t) == InvRounds(sb, keys, x, p + 1)
    {
      p := p + 2;
      r := r - 1;
      s := TdRound(sb, t, KeyWords(rk, p));
      TdRoundIs(sb, t, KeyWords(rk, p));
      t := TdRound(sb, s, KeyWords(rk, p + 1));
      TdRoundIs(sb, s, KeyWords(rk, p + 1));
    }
    s := TdLast(sb, t, KeyWords(rk, p + 2));
    TdLastIs(sb, t, KeyWords(rk, p + 2));
    out := BlockBytes(StateOf(s));
  }
}

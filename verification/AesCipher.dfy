/** The cipher of FIPS 197 and its equivalent inverse cipher, over any byte substitution that can be undone. */
module AesCipher {
  import opened AesField

  /** The S-box and its inverse. */
  datatype SBox = SBox(s: Byte -> Byte, si: Byte -> Byte)
  {
    ghost predicate Valid() { forall x: Byte :: si(s(x)) == x }
  }

  datatype State = State(c0: Column, c1: Column, c2: Column, c3: Column)

  function SubColumn(f: Byte -> Byte, x: Column): Column { Column(f(x.a), f(x.b), f(x.c), f(x.d)) }

  function Sub(f: Byte -> Byte, x: State): State {
    State(SubColumn(f, x.c0), SubColumn(f, x.c1), SubColumn(f, x.c2), SubColumn(f, x.c3))
  }

  /** Section 5.1.2 of FIPS 197: row r moves left by r columns. */
  function Shift(x: State): State {
    State(Column(x.c0.a, x.c1.b, x.c2.c, x.c3.d), Column(x.c1.a, x.c2.b, x.c3.c, x.c0.d),
          Column(x.c2.a, x.c3.b, x.c0.c, x.c1.d), Column(x.c3.a, x.c0.b, x.c1.c, x.c2.d))
  }

  function InvShift(x: State): State {
    State(Column(x.c0.a, x.c3.b, x.c2.c, x.c1.d), Column(x.c1.a, x.c0.b, x.c3.c, x.c2.d),
          Column(x.c2.a, x.c1.b, x.c0.c, x.c3.d), Column(x.c3.a, x.c2.b, x.c1.c, x.c0.d))
  }

  function MixAll(x: State): State { State(Mix(x.c0), Mix(x.c1), Mix(x.c2), Mix(x.c3)) }
  function InvMixAll(x: State): State { State(InvMix(x.c0), InvMix(x.c1), InvMix(x.c2), InvMix(x.c3)) }
  function AddKey(x: State, k: State): State {
    State(Xor(x.c0, k.c0), Xor(x.c1, k.c1), Xor(x.c2, k.c2), Xor(x.c3, k.c3))
  }

  // ---------- The cipher ----------

  /** The state after round i (section 5.1 of FIPS 197). */
  function Rounds(sb: SBox, keys: seq<State>, x: State, i: nat): State
    requires i < |keys|
  {
    if i == 0 then AddKey(x, keys[0]) else AddKey(MixAll(Shift(Sub(sb.s, Rounds(sb, keys, x, i - 1)))), keys[i])
  }

  function Cipher(sb: SBox, keys: seq<State>, x: State): State
    requires |keys| >= 2
  {
    AddKey(Shift(Sub(sb.s, Rounds(sb, keys, x, |keys| - 2))), keys[|keys| - 1])
  }

  /** The state of the equivalent inverse cipher after round i (section 5.3.5 of FIPS 197). */
  function InvRounds(sb: SBox, keys: seq<State>, x: State, i: nat): State
    requires i < |keys|
  {
    if i == 0 then AddKey(x, keys[0])
      else AddKey(InvMixAll(InvShift(Sub(sb.si, InvRounds(sb, keys, x, i - 1)))), keys[i])
  }

  function InvCipher(sb: SBox, keys: seq<State>, x: State): State
    requires |keys| >= 2
  {
    AddKey(InvShift(Sub(sb.si, InvRounds(sb, keys, x, |keys| - 2))), keys[|keys| - 1])
  }

  /** Its key schedule: the round keys in reverse order, all but the outer two through InvMixColumns. */
  function InvKeys(keys: seq<State>): (r: seq<State>)
    ensures |r| == |keys|
  {
    var n := |keys|;
    seq(n, i requires 0 <= i < n => if i == 0 || i == n - 1 then keys[n - 1 - i] else InvMixAll(keys[n - 1 - i]))
  }

  // ---------- Undoing the steps ----------

  lemma UndoKey(x: State, k: State)
    ensures AddKey(AddKey(x, k), k) == x
  {
    hide Xor;
    XorTwice(x.c0, k.c0);
    XorTwice(x.c1, k.c1);
    XorTwice(x.c2, k.c2);
    XorTwice(x.c3, k.c3);
  }

  lemma UndoSubShift(sb: SBox, x: State)
    requires sb.Valid()
    ensures InvShift(Sub(sb.si, Shift(Sub(sb.s, x)))) == x
  {
  }

  lemma UndoMixKey(x: State, k: State)
    ensures AddKey(InvMixAll(AddKey(MixAll(x), k)), InvMixAll(k)) == x
  {
    hide InvMix, Mix, Xor;
    InvMixLinear(Mix(x.c0), k.c0);
    InvMixLinear(Mix(x.c1), k.c1);
    InvMixLinear(Mix(x.c2), k.c2);
    InvMixLinear(Mix(x.c3), k.c3);
    InvMixMix(x.c0);
    InvMixMix(x.c1);
    InvMixMix(x.c2);
    InvMixMix(x.c3);
    UndoKey(x, InvMixAll(k));
  }

  /** After i rounds the inverse cipher stands where the cipher stood before its last i + 1 substitutions. */
  lemma {:induction false} InvRoundsMeet(sb: SBox, keys: seq<State>, x: State, i: nat)
    requires sb.Valid() && |keys| >= 2 && i <= |keys| - 2
    ensures InvRounds(sb, InvKeys(keys), Cipher(sb, keys, x), i)
      == Shift(Sub(sb.s, Rounds(sb, keys, x, |keys| - 2 - i)))
  {
    hide AddKey, Shift, InvShift, MixAll, InvMixAll, Sub;
    var n := |keys|;
    var j := n - 2 - i;
    if i == 0 {
      UndoKey(Shift(Sub(sb.s, Rounds(sb, keys, x, n - 2))), keys[n - 1]);
    } else {
      InvRoundsMeet(sb, keys, x, i - 1);
      UndoSubShift(sb, Rounds(sb, keys, x, j + 1));
      UndoMixKey(Shift(Sub(sb.s, Rounds(sb, keys, x, j))), keys[j + 1]);
    }
  }

  /** Decryption undoes encryption, whatever the round keys. */
  lemma InvCipherCipher(sb: SBox, keys: seq<State>, x: State)
    requires sb.Valid() && |keys| >= 2
    ensures InvCipher(sb, InvKeys(keys), Cipher(sb, keys, x)) == x
  {
    hide AddKey, Shift, InvShift, MixAll, InvMixAll, Sub;
    var n := |keys|;
    InvRoundsMeet(sb, keys, x, n - 2);
    UndoSubShift(sb, Rounds(sb, keys, x, 0));
    UndoKey(x, keys[0]);
  }
}

/** find_new_snapshot_id: the number after the largest id in use. */
module SnapshotIds {
  const ULONG_MAX := 0xffff_ffff_ffff_ffff
  const INT_MAX := 0x7fff_ffff

  predicate IsDigit(c: char) { '0' <= c <= '9' }

  predicate IsSpace(c: char) { c == ' ' || '\t' <= c <= '\r' }

  function DigitOf(c: char): nat
    requires IsDigit(c)
  {
    (c - '0') as nat
  }

  /** The digits s starts with, after acc. */
  function Digits(s: string, acc: nat): nat {
    if s == "" || !IsDigit(s[0]) then acc else Digits(s[1..], acc * 10 + DigitOf(s[0]))
  }

  function Unsigned(s: string): nat {
    if s != "" && s[0] == '-' then Negated(Digits(s[1..], 0))
    else if s != "" && s[0] == '+' then Clamped(Digits(s[1..], 0))
    else Clamped(Digits(s, 0))
  }

  function Clamped(v: nat): (r: nat)
    ensures r <= ULONG_MAX
  {
    if v > ULONG_MAX then ULONG_MAX else v
  }

  /** A number out of range is not negated. */
  function Negated(v: nat): (r: nat)
    ensures r <= ULONG_MAX
  {
    if v > ULONG_MAX then ULONG_MAX else (ULONG_MAX + 1 - v) % (ULONG_MAX + 1)
  }

  /** strtoul in base 10. */
  function Strtoul(s: string): nat {
    if s != "" && IsSpace(s[0]) then Strtoul(s[1..]) else Unsigned(s)
  }

  /** What is left of an unsigned long in an int. */
  function AsInt(v: nat): (r: int)
    ensures -0x8000_0000 <= r <= INT_MAX && (v - r) % 0x1_0000_0000 == 0
  {
    var low := v % 0x1_0000_0000;
    if low > INT_MAX then low - 0x1_0000_0000 else low
  }

  function IdMax(ids: seq<string>): (m: int)
    ensures 0 <= m <= INT_MAX && forall i :: 0 <= i < |ids| ==> AsInt(Strtoul(ids[i])) <= m
  {
    if ids == [] then 0
    else
      var m, id := IdMax(ids[..|ids| - 1]), AsInt(Strtoul(ids[|ids| - 1]));
      if id > m then id else m
  }

  /** m is the largest of the numbers read from the ids, or 0 if none is larger. */
  ghost predicate Largest(ids: seq<string>, m: int) {
    && (m == 0 || exists i :: 0 <= i < |ids| && AsInt(Strtoul(ids[i])) == m)
    && m >= 0 && forall i :: 0 <= i < |ids| ==> AsInt(Strtoul(ids[i])) <= m
  }

  lemma {:induction false} IdMaxLargest(ids: seq<string>)
    ensures Largest(ids, IdMax(ids))
  {
    hide AsInt, Strtoul;
    if ids != [] {
      var n := |ids| - 1;
      IdMaxLargest(ids[..n]);
      if IdMax(ids) == AsInt(Strtoul(ids[n])) {
      } else if IdMax(ids) != 0 {
        var i :| 0 <= i < n && AsInt(Strtoul(ids[..n][i])) == IdMax(ids[..n]);
        assert ids[i] == ids[..n][i];
      }
    }
  }

  /** The new id says one more than the largest number, and reads back as that. */
  lemma NewIdNext(ids: seq<string>, m: int)
    requires Largest(ids, m)
    ensures if m < INT_MAX then AsInt(Strtoul(NewId(ids))) == m + 1 else NewId(ids) == "-2147483648"
  {
    hide AsInt, Strtoul, Decimal;
    IdMaxLargest(ids);
    assert m == IdMax(ids);
    if m < INT_MAX {
      DecimalParses(m + 1);
    }
  }

  /** "%d" of a number that is not negative. */
  function Decimal(n: nat): string {
    if n < 10 then ['0' + n as char] else Decimal(n / 10) + ['0' + (n % 10) as char]
  }

  /** One more than the largest int comes out as the smallest. */
  function NewId(ids: seq<string>): string {
    if IdMax(ids) < INT_MAX then Decimal(IdMax(ids) + 1) else "-2147483648"
  }

  lemma NewIdIs(ids: seq<string>, id: string)
    requires id == if IdMax(ids) < INT_MAX then Decimal(IdMax(ids) + 1) else "-2147483648"
    ensures id == NewId(ids)
  {
  }

  lemma {:induction false} DigitsAppend(a: string, d: char, acc: nat)
    requires (forall i :: 0 <= i < |a| ==> IsDigit(a[i])) && IsDigit(d)
    ensures Digits(a + [d], acc) == Digits(a, acc) * 10 + DigitOf(d)
  {
    if a != "" {
      assert (a + [d])[1..] == a[1..] + [d];
      DigitsAppend(a[1..], d, acc * 10 + DigitOf(a[0]));
    }
  }

  /** Printing, then parsing. */
  lemma {:induction false} DigitsDecimal(n: nat)
    ensures |Decimal(n)| > 0 && (forall i :: 0 <= i < |Decimal(n)| ==> IsDigit(Decimal(n)[i]))
    ensures Digits(Decimal(n), 0) == n
  {
    if n >= 10 {
      DigitsDecimal(n / 10);
      DigitsAppend(Decimal(n / 10), '0' + (n % 10) as char, 0);
    }
  }

  lemma DecimalParses(n: nat)
    requires n <= INT_MAX
    ensures AsInt(Strtoul(Decimal(n))) == n
  {
    hide Decimal, Digits, Strtoul;
    DigitsDecimal(n);
    PlainNumber(Decimal(n));
  }

  /** Without spaces and sign. */
  lemma PlainNumber(s: string)
    requires s != "" && IsDigit(s[0])
    ensures Strtoul(s) == Clamped(Digits(s, 0))
  {
    hide Digits;
  }

  /** The number that decimal digits stand for. */
  function Number(d: string): nat
    requires forall i :: 0 <= i < |d| ==> IsDigit(d[i])
  {
    if d == "" then 0 else 10 * Number(d[..|d| - 1]) + DigitOf(d[|d| - 1])
  }

  lemma {:induction false} DigitsNumber(d: string, rest: string)
    requires (forall i :: 0 <= i < |d| ==> IsDigit(d[i])) && (rest == "" || !IsDigit(rest[0]))
    ensures Digits(d + rest, 0) == Number(d)
    decreases |d|
  {
    DigitsRest(d, rest, 0);
    if d != "" {
      var n := |d| - 1;
      DigitsNumber(d[..n], "");
      assert d[..n] + "" == d[..n] && d[..n] + [d[n]] == d;
      DigitsAppend(d[..n], d[n], 0);
    }
  }

  lemma {:induction false} DigitsRest(d: string, rest: string, acc: nat)
    requires (forall i :: 0 <= i < |d| ==> IsDigit(d[i])) && (rest == "" || !IsDigit(rest[0]))
    ensures Digits(d + rest, acc) == Digits(d, acc)
    decreases |d|
  {
    if d == "" {
      assert d + rest == rest;
    } else {
      assert (d + rest)[1..] == d[1..] + rest;
      DigitsRest(d[1..], rest, acc * 10 + DigitOf(d[0]));
    }
  }

  /** Spaces are skipped, then a sign is taken, then digits. Too large a number becomes the largest; a smaller one after
      a minus is taken modulo 2^64. */
  lemma {:induction false} StrtoulIs(space: string, sign: string, d: string, rest: string)
    requires (forall i :: 0 <= i < |space| ==> IsSpace(space[i])) && sign in {"", "+", "-"}
    requires d != "" && (forall i :: 0 <= i < |d| ==> IsDigit(d[i])) && (rest == "" || !IsDigit(rest[0]))
    ensures Strtoul(space + sign + d + rest)
      == if Number(d) > ULONG_MAX then ULONG_MAX
         else if sign == "-" && Number(d) > 0 then 0x1_0000_0000_0000_0000 - Number(d) else Number(d)
    decreases |space|
  {
    hide Digits;
    var s := space + sign + d + rest;
    if space != "" {
      StrtoulIs(space[1..], sign, d, rest);
      assert s[1..] == space[1..] + sign + d + rest;
    } else {
      DigitsNumber(d, rest);
      if sign == "" {
        assert s == d + rest;
      } else {
        assert s[1..] == d + rest;
      }
    }
  }

  /** The id made up for a snapshot is in use only when the ids have reached the largest int and wrapped around. */
  lemma NewIdFresh(ids: seq<string>)
    ensures NewId(ids) in ids <==> IdMax(ids) == INT_MAX && "-2147483648" in ids
  {
    hide Decimal, Strtoul, AsInt;
    if IdMax(ids) < INT_MAX {
      DecimalParses(IdMax(ids) + 1);
    }
  }

  /** Two ids that leave only one in use. */
  lemma NewIdClashes()
    ensures var ids := ["2147483647", "-2147483648"]; NewId(ids) in ids
  {
    var ids := ["2147483647", "-2147483648"];
    LargestParses();
    assert AsInt(Strtoul(ids[0])) <= IdMax(ids);
    NewIdFresh(ids);
  }

  lemma LargestParses()
    ensures AsInt(Strtoul("2147483647")) == INT_MAX
  {
    hide Digits, Strtoul;
    PlainNumber("2147483647");
    FirstDigits();
    LastDigits();
  }

  lemma FirstDigits()
    ensures Digits("2147483647", 0) == Digits("83647", 21474)
  {
    hide Digits;
    NextDigit("2147483647", 0);
    NextDigit("147483647", 2);
    NextDigit("47483647", 21);
    NextDigit("7483647", 214);
    NextDigit("483647", 2147);
  }

  lemma LastDigits()
    ensures Digits("83647", 21474) == INT_MAX
  {
    hide Digits;
    NextDigit("83647", 21474);
    NextDigit("3647", 214748);
    NextDigit("647", 2147483);
    NextDigit("47", 21474836);
    NextDigit("7", 214748364);
    assert "7"[1..] == "";
    NextDigit("", 2147483647);
  }

  lemma NextDigit(s: string, acc: nat)
    ensures Digits(s, acc) == if s == "" || !IsDigit(s[0]) then acc else Digits(s[1..], acc * 10 + DigitOf(s[0]))
  {
  }

  /** The id a snapshot gets: the one asked for, or a new one when that is empty. */
  function ActualId(ids: seq<string>, id: string): string { if id == "" then NewId(ids) else id }
}

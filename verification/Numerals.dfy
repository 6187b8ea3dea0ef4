/** Numbers as text: tet_l2a() with its rotating static buffers, and the numeral notation it writes. */
module Numerals {

  // ---------------------------------------------------------------- numeral notation

  function DigitChar(d: nat): (c: char)
    requires d < 10
    ensures '0' <= c <= '9'
  {
    '0' + d as char
  }

  /** n in base `radix`, most significant digit first. */
  function Digits(n: nat, radix: nat): (s: string)
    requires 2 <= radix <= 10
    ensures |s| >= 1
    decreases n
  {
    if n < radix then [DigitChar(n)] else Digits(n / radix, radix) + [DigitChar(n % radix)]
  }

  predicate OnlyDigits(s: string) {
    forall i :: 0 <= i < |s| ==> '0' <= s[i] <= '9'
  }

  lemma {:induction false} DigitsAreDigits(n: nat, radix: nat)
    requires 2 <= radix <= 10
    ensures OnlyDigits(Digits(n, radix))
    decreases n
  {
    if n >= radix { DigitsAreDigits(n / radix, radix); }
  }

  /** What printf's %ld and tet_l2a() both write. */
  function Decimal(n: int): (s: string)
    ensures |s| >= 1
  {
    if n < 0 then "-" + Digits(-n, 10) else Digits(n, 10)
  }

  lemma DecimalCharacters(n: int)
    ensures forall i :: 0 <= i < |Decimal(n)| ==> Decimal(n)[i] == '-' || '0' <= Decimal(n)[i] <= '9'
  {
    DigitsAreDigits(if n < 0 then -n else n, 10);
  }

  function Value(s: string): int {
    if s == [] then 0 else Value(s[..|s| - 1]) * 10 + (s[|s| - 1] as int - '0' as int)
  }

  function Parse(s: string): int {
    if s != [] && s[0] == '-' then -Value(s[1..]) else Value(s)
  }

  lemma {:induction false} ValueOfDigits(n: nat)
    ensures Value(Digits(n, 10)) == n
  {
    if n >= 10 {
      var front := Digits(n / 10, 10);
      ValueOfDigits(n / 10);
      assert (front + [DigitChar(n % 10)])[..|front|] == front;
    }
  }

  /** The text of a number says which number it was. */
  lemma ParseDecimal(n: int)
    ensures Parse(Decimal(n)) == n
  {
    if n < 0 {
      assert ("-" + Digits(-n, 10))[1..] == Digits(-n, 10);
      ValueOfDigits(-n);
    } else {
      DigitsAreDigits(n, 10);
      ValueOfDigits(n);
    }
  }

  // ---------------------------------------------------------------- room for the widest long

  function Pow(b: nat, e: nat): nat {
    if e == 0 then 1 else b * Pow(b, e - 1)
  }

  lemma {:induction false} PowAdd(b: nat, d: nat, e: nat)
    ensures Pow(b, d + e) == Pow(b, d) * Pow(b, e)
  {
    if d > 0 {
      PowAdd(b, d - 1, e);
      assert b * (Pow(b, d - 1) * Pow(b, e)) == b * Pow(b, d - 1) * Pow(b, e);
    }
  }

  lemma {:induction false} PowPow(b: nat, d: nat, e: nat)
    ensures Pow(Pow(b, d), e) == Pow(b, d * e)
  {
    if e > 0 {
      PowPow(b, d, e - 1);
      PowAdd(b, d, d * (e - 1));
      assert d + d * (e - 1) == d * e;
    }
  }

  lemma ProductLess(b: nat, c: nat, x: nat, y: nat)
    requires b < c && x <= y && 0 < y
    ensures b * x < c * y
  {
    assert b * x <= b * y;
    assert c * y == b * y + (c - b) * y;
    assert 0 < (c - b) * y;
  }

  lemma {:induction false} PowMonotone(b: nat, c: nat, e: nat)
    requires b < c
    ensures Pow(b, e) <= Pow(c, e) && (e > 0 ==> Pow(b, e) < Pow(c, e))
  {
    if e > 0 {
      PowMonotone(b, c, e - 1);
      PowPositive(c, e - 1);
      ProductLess(b, c, Pow(b, e - 1), Pow(c, e - 1));
    }
  }

  lemma {:induction false} PowPositive(b: nat, e: nat)
    requires b > 0
    ensures Pow(b, e) > 0
  {
    if e > 0 { PowPositive(b, e - 1); }
  }

  lemma {:induction false} PowGrows(b: nat, d: nat, e: nat)
    requires b > 0 && d <= e
    ensures Pow(b, d) <= Pow(b, e)
  {
    PowAdd(b, d, e - d);
    PowPositive(b, e - d);
    assert Pow(b, d) <= Pow(b, d) * Pow(b, e - d);
  }

  lemma {:induction false} DigitsFit(n: nat, k: nat)
    requires n < Pow(10, k) && k >= 1
    ensures |Digits(n, 10)| <= k
  {
    if n >= 10 {
      assert Pow(10, 0) == 1 && Pow(10, 1) == 10;
      assert Pow(10, k) == 10 * Pow(10, k - 1);
      DigitsFit(n / 10, k - 1);
    }
  }

  lemma Bits33()
    ensures Pow(2, 33) < Pow(10, 10)
  {
    assert Pow(2, 11) == 2048;
    PowAdd(2, 11, 11);
    PowAdd(2, 22, 11);
    assert Pow(10, 5) == 100000;
    PowAdd(10, 5, 5);
  }

  /** Ten decimal digits hold 33 bits, so (10 b + 32) / 33 digits hold b bits. */
  lemma BitsInDigits(b: nat)
    ensures Pow(2, b) <= Pow(10, (10 * b + 32) / 33)
  {
    var d := (10 * b + 32) / 33;
    if Pow(10, d) < Pow(2, b) {
      PowMonotone(Pow(10, d), Pow(2, b), 33);
      PowPow(10, d, 33);
      PowPow(2, b, 33);
      PowGrows(10, 10 * b, d * 33);
      PowPow(10, 10, b);
      PowPow(2, 33, b);
      assert Pow(2, b * 33) == Pow(2, 33 * b);
      Bits33();
      PowMonotone(Pow(2, 33), Pow(10, 10), b);
    }
  }

  /** LNUMSZ for a long of the given number of bits: sign and terminator included. */
  function LNumSz(bits: nat): nat {
    2 + (bits * 10 + 32) / 33
  }

  predicate IsLong(n: int, bits: nat) {
    bits >= 1 && 0 - Pow(2, bits - 1) <= n < Pow(2, bits - 1)
  }

  /** LNUMSZ covers every long of every width, the most negative one included. */
  lemma LongsFit(n: int, bits: nat)
    requires IsLong(n, bits)
    ensures |Decimal(n)| < LNumSz(bits)
  {
    BitsInDigits(bits);
    var k := (bits * 10 + 32) / 33;
    assert Pow(2, bits) == 2 * Pow(2, bits - 1);
    PowPositive(2, bits - 1);
    DigitsFit(if n < 0 then -n else n, k);
  }

  // ---------------------------------------------------------------- tet_l2a()

  const NLBUF := 5

  /** C's integer division truncates toward zero (section 6.5.5 of ISO/IEC 9899:1999). */
  function CDiv(a: int, b: int): int
    requires b > 0
  {
    if a >= 0 then a / b else -(-a / b)
  }

  function CRem(a: int, b: int): int
    requires b > 0
  {
    a - CDiv(a, b) * b
  }

  /** Truncation makes the remainder follow the sign, so multiplying by the sign gives the digit. */
  lemma LastDigit(n: int, size: int, sign: int)
    requires size >= 0
    requires (sign == 1 && n == size) || (sign == -1 && n == -size)
    ensures CRem(n, 10) * sign == size % 10
    ensures CDiv(n, 10) == if sign == 1 then size / 10 else -(size / 10)
    ensures size >= 10 ==> Digits(size, 10) == Digits(size / 10, 10) + [DigitChar(size % 10)]
    ensures size < 10 ==> Digits(size, 10) == [DigitChar(size % 10)]
  {
    if sign == 1 {
      assert n % 10 == n - n / 10 * 10;
    } else {
      assert size % 10 == size - size / 10 * 10;
    }
  }

  /** A pointer returned earlier, and the number it was returned for. */
  datatype Returned = Returned(n: int, slot: nat, p: nat)

  lemma Regroup(front: string, digit: char, back: string)
    ensures (front + [digit]) + back == front + ([digit] + back)
  {
  }

  /** The C string at &row[p]. */
  ghost predicate Holds(row: array<char>, p: nat, text: string)
    reads row
  {
    && p + |text| + 1 == row.Length
    && row[p..] == text + ['\0']
    && '\0' !in text
  }

  /** The digit loop of tet_l2a(): digits go backwards from the end of a row. */
  method WriteDigits(row: array<char>, n0: int, sign: int) returns (p: nat)
    requires sign == (if n0 < 0 then -1 else 1) && |Digits(n0 * sign, 10)| < row.Length
    modifies row
    ensures p + |Digits(n0 * sign, 10)| + 1 == row.Length
    ensures row[p..] == Digits(n0 * sign, 10) + ['\0']
  {
    var n := n0;
    p := row.Length - 1;
    row[p] := '\0';
    ghost var size := n0 * sign;
    ghost var rest: int, written: string := size, "";     // the digits of `rest` are still to be written
    while true
      invariant rest >= 0 && n == if sign == 1 then rest else -rest
      invariant Digits(size, 10) == Digits(rest, 10) + written
      invariant p + |written| == row.Length - 1
      invariant row[p..] == written + ['\0']
      decreases rest
    {
      LastDigit(n, rest, sign);
      ghost var digit := DigitChar(rest % 10);
      Regroup(Digits(rest / 10, 10), digit, written);
      ghost var tail := row[p..];
      p := p - 1;
      row[p] := DigitChar(CRem(n, 10) * sign);
      assert row[p..] == [digit] + tail;
      written := [digit] + written;
      n := CDiv(n, 10);
      if n == 0 { break; }
      rest := rest / 10;
    }
  }

  /** The digits, and the sign if there is one. */
  method WriteBackwards(row: array<char>, n0: int) returns (p: nat)
    requires |Decimal(n0)| < row.Length
    modifies row
    ensures Holds(row, p, Decimal(n0))
  {
    DecimalCharacters(n0);
    var sign := if n0 < 0 then -1 else 1;
    p := WriteDigits(row, n0, sign);
    if sign < 0 {
      ghost var tail := row[p..];
      p := p - 1;
      row[p] := '-';
      assert row[p..] == ['-'] + tail;
    }
  }

  /** The slot used `back` calls before the call that used `slot`. */
  function SlotBefore(slot: nat, back: nat): nat
    requires slot < NLBUF && back < NLBUF
  {
    if back <= slot then slot - back else slot + NLBUF - back
  }

  class Longs {
    const bits: nat
    const buf: seq<array<char>>     // the rows of the static two-dimensional buffer
    var count: nat
    ghost var answers: seq<Returned>

    ghost predicate Shape()
      reads this
    {
      && bits >= 1 && |buf| == NLBUF && count < NLBUF
      && (forall i :: 0 <= i < NLBUF ==> buf[i].Length == LNumSz(bits))
      && (forall i, j :: 0 <= i < j < NLBUF ==> buf[i] != buf[j])
    }

    /** The last NLBUF answers still read as they did when they were returned. */
    ghost predicate Valid()
      reads this, buf
    {
      Shape() &&
      forall i :: 0 <= i < |answers| && |answers| - NLBUF <= i ==>
        && answers[i].slot == SlotBefore(count, |answers| - 1 - i)
        && Holds(buf[answers[i].slot], answers[i].p, Decimal(answers[i].n))
    }

    constructor (bits: nat)
      requires bits >= 1
      ensures Valid() && this.bits == bits && answers == []
    {
      var b0, b1 := new char[LNumSz(bits)], new char[LNumSz(bits)];
      var b2, b3, b4 := new char[LNumSz(bits)], new char[LNumSz(bits)], new char[LNumSz(bits)];
      this.bits := bits;
      buf := [b0, b1, b2, b3, b4];
      count := 0;
      answers := [];
    }

    /** tet_l2a(): the next of the NLBUF rows is overwritten. */
    method L2a(n: int) returns (p: nat)
      requires Valid() && IsLong(n, bits)
      modifies this, buf
      ensures Valid() && answers == old(answers) + [Returned(n, count, p)]
      ensures Holds(buf[count], p, Decimal(n))
    {
      count := count + 1;
      if count >= NLBUF { count := 0; }
      LongsFit(n, bits);
      p := WriteBackwards(buf[count], n);
      answers := answers + [Returned(n, count, p)];
      forall i | 0 <= i < |answers| && |answers| - NLBUF <= i
        ensures answers[i].slot == SlotBefore(count, |answers| - 1 - i)
        ensures Holds(buf[answers[i].slot], answers[i].p, Decimal(answers[i].n))
      {
        if i < |answers| - 1 { assert answers[i] == old(answers)[i]; }
      }
    }
  }
}

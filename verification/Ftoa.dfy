/** tet_f2a(): the names of the bits of a flag word, sized in one pass and written in the next. */
module Ftoa {
  import opened Numerals
  import opened Options
  import opened Bufchk
  import opened LineBuffer

  const NFBUF := 2
  const INT_BITS := 32
  const LONG_BITS := 64

  /** An entry of a table of flag names. */
  datatype Flag = Flag(value: int, name: string)

  // ---------------------------------------------------------------- the names

  /** The int 1 << n: the highest bit is the sign. */
  function Bit(n: nat): int {
    if n == INT_BITS - 1 then 0 - Pow(2, n) else Pow(2, n)
  }

  /** An int as an unsigned of the same width. */
  function Unsigned(v: int): int {
    if v < 0 then v + Pow(2, INT_BITS) else v
  }

  /** tet_i2o(): a leading 0, then the octal digits of the int as an unsigned long. */
  function Octal(v: int): string {
    var u := if v < 0 then v + Pow(2, LONG_BITS) else v;
    if u <= 0 then "0" else "0" + Digits(u, 8)
  }

  /** The position of the last of the first k flags with this value, or -1. */
  function LastFlag(flags: seq<Flag>, value: int, k: nat): (i: int)
    requires k <= |flags|
    ensures -1 <= i < k
  {
    if k == 0 then -1 else if flags[k - 1].value == value then k - 1 else LastFlag(flags, value, k - 1)
  }

  /** Later entries of the table win. */
  lemma {:induction false} LastFlagIs(flags: seq<Flag>, value: int, k: nat, j: nat)
    requires j < k <= |flags|
    ensures var i := LastFlag(flags, value, k);
            && (i >= 0 ==> flags[i].value == value)
            && (flags[j].value == value ==> i >= j)
  {
    if j < k - 1 {
      LastFlagIs(flags, value, k - 1, j);
    } else if k > 1 && flags[j].value != value {
      LastFlagIs(flags, value, k - 1, 0);
    }
  }

  function Name(flags: seq<Flag>, n: nat): string {
    var i := LastFlag(flags, Bit(n), |flags|);
    if i >= 0 then flags[i].name else Octal(Bit(n))
  }

  /** The names of the set bits of ftmp, lowest first; its lowest bit is bit n of the flag word. */
  function Names(flags: seq<Flag>, ftmp: nat, n: nat): seq<string> {
    if ftmp == 0 then [] else
      (if ftmp % 2 == 1 then [Name(flags, n)] else []) + Names(flags, ftmp / 2, n + 1)
  }

  lemma {:induction false} SomeName(flags: seq<Flag>, ftmp: nat, n: nat)
    ensures Names(flags, ftmp, n) == [] <==> ftmp == 0
  {
    if ftmp > 0 { SomeName(flags, ftmp / 2, n + 1); }
  }

  /** Bit b of the flag word is set. */
  predicate IsSet(fval: nat, b: nat) {
    PowPositive(2, b);
    fval / Pow(2, b) % 2 == 1
  }

  /** The set bits of ftmp, whose lowest bit counts as bit n. */
  function Bits(ftmp: nat, n: nat): seq<nat> {
    if ftmp == 0 then [] else if ftmp % 2 == 1 then [n] + Bits(ftmp / 2, n + 1) else Bits(ftmp / 2, n + 1)
  }

  lemma {:induction false} NamesOfBits(flags: seq<Flag>, ftmp: nat, n: nat)
    ensures var bits, names := Bits(ftmp, n), Names(flags, ftmp, n);
            |names| == |bits| && forall i :: 0 <= i < |bits| ==> names[i] == Name(flags, bits[i])
  {
    hide Name;
    if ftmp > 0 { NamesOfBits(flags, ftmp / 2, n + 1); }
  }

  predicate Ascending(bits: seq<nat>, n: nat) {
    (forall b :: b in bits ==> n <= b) && forall i, j :: 0 <= i < j < |bits| ==> bits[i] < bits[j]
  }

  lemma OneMoreBit(bits: seq<nat>, n: nat)
    requires Ascending(bits, n + 1)
    ensures Ascending(bits, n) && Ascending([n] + bits, n)
  {
    var more := [n] + bits;
    forall i, j | 0 <= i < j < |more| ensures more[i] < more[j] {
      assert more[j] == bits[j - 1] && bits[j - 1] in bits;
    }
  }

  lemma {:induction false} BitsAscend(ftmp: nat, n: nat)
    ensures Ascending(Bits(ftmp, n), n)
  {
    if ftmp > 0 {
      BitsAscend(ftmp / 2, n + 1);
      OneMoreBit(Bits(ftmp / 2, n + 1), n);
      hide Ascending;
    }
  }

  lemma {:induction false} BitsAreSet(ftmp: nat, n: nat, b: nat)
    ensures n + b in Bits(ftmp, n) <==> IsSet(ftmp, b)
  {
    FirstBit(ftmp);
    if ftmp == 0 {
      PowPositive(2, b);
    } else {
      hide IsSet;
      BitsAscend(ftmp / 2, n + 1);
      if b > 0 {
        HalvedIsSet(ftmp, b);
        BitsAreSet(ftmp / 2, n + 1, b - 1);
        assert n + b == n + 1 + (b - 1);
      }
    }
  }

  lemma FirstBit(fval: nat)
    ensures IsSet(fval, 0) <==> fval % 2 == 1
  {
    assert Pow(2, 0) == 1;
  }

  lemma HalvedIsSet(ftmp: nat, b: nat)
    requires b > 0
    ensures IsSet(ftmp, b) <==> IsSet(ftmp / 2, b - 1)
  {
    var p := Pow(2, b - 1);
    PowPositive(2, b - 1);
    assert Pow(2, b) == 2 * p;
    DividedTwice(ftmp, p);
  }

  lemma DividedTwice(a: nat, p: nat)
    requires p > 0
    ensures a / (2 * p) == a / 2 / p
  {
    var q, r := a / (2 * p), a % (2 * p);
    assert a == q * (2 * p) + r && 0 <= r < 2 * p;
    assert q * (2 * p) == 2 * (q * p);
    assert a / 2 == q * p + r / 2 && 0 <= r / 2 < p;
    Quotient(a / 2, q, p, r / 2);
  }

  lemma Quotient(a: nat, q: nat, p: nat, r: nat)
    requires a == q * p + r && r < p
    ensures a / p == q
  {
    var d := a / p;
    assert a == d * p + a % p;
    if d < q { TimesGrows(d + 1, q, p); }
    if d > q { TimesGrows(q + 1, d, p); }
  }

  lemma TimesGrows(x: nat, y: nat, p: nat)
    requires x <= y
    ensures x * p <= y * p
  {
  }

  /** The names are those of the set bits, each once and in ascending order. */
  lemma NamesAre(flags: seq<Flag>, fval: nat) returns (bits: seq<nat>)
    ensures var names := Names(flags, fval, 0);
            |names| == |bits| && forall i :: 0 <= i < |bits| ==> names[i] == Name(flags, bits[i])
    ensures Ascending(bits, 0) && forall b: nat :: b in bits <==> IsSet(fval, b)
  {
    bits := Bits(fval, 0);
    NamesOfBits(flags, fval, 0);
    BitsAscend(fval, 0);
    hide IsSet, Name;
    forall b: nat ensures b in bits <==> IsSet(fval, b) { BitsAreSet(fval, 0, b); }
  }

  /** The number that octal digits stand for. */
  function OctalValue(s: string): int {
    if s == "" then 0 else OctalValue(s[..|s| - 1]) * 8 + (s[|s| - 1] as int - '0' as int)
  }

  lemma {:induction false} OctalOfDigits(n: nat)
    ensures OctalValue(Digits(n, 8)) == n
    decreases n
  {
    if n >= 8 {
      var front := Digits(n / 8, 8);
      OctalOfDigits(n / 8);
      assert (front + [DigitChar(n % 8)])[..|front|] == front;
    }
  }

  lemma {:induction false} LeadingZero(s: string)
    ensures OctalValue("0" + s) == OctalValue(s)
  {
    if s == "" {
      assert "0" + s == "0" && "0"[..0] == "";
    } else {
      LeadingZero(s[..|s| - 1]);
      assert ("0" + s)[..|s|] == "0" + s[..|s| - 1] && ("0" + s)[|s|] == s[|s| - 1];
    }
  }

  lemma BitIs(n: nat)
    requires n < INT_BITS
    ensures Unsigned(Bit(n)) == Pow(2, n) > 0 && Bit(n) != 0 && Bit(n) + Pow(2, 64) > 0
  {
    PowPositive(2, n);
    assert Pow(2, INT_BITS) == 2 * Pow(2, INT_BITS - 1);
    PowGrows(2, INT_BITS, 64);
  }

  /** A bit without a name of its own is shown as an octal number, as a C compiler would read it. */
  lemma UnnamedBit(flags: seq<Flag>, n: nat)
    requires n < INT_BITS && forall i :: 0 <= i < |flags| ==> flags[i].value != Bit(n)
    ensures var name, v := Name(flags, n), Bit(n);
            && Unsigned(v) == Pow(2, n) && name != "" && name[0] == '0'
            && OctalValue(name) == if v < 0 then v + Pow(2, 64) else v
  {
    BitIs(n);
    var v, i := Bit(n), LastFlag(flags, Bit(n), |flags|);
    if i >= 0 { LastFlagIs(flags, v, |flags|, i); }
    hide Bit, Pow, Unsigned, LastFlag;
    var u := if v < 0 then v + Pow(2, LONG_BITS) else v;
    OctalOfDigits(u);
    LeadingZero(Digits(u, 8));
  }

  // ---------------------------------------------------------------- the text

  function Join(names: seq<string>): string {
    if |names| == 0 then "" else if |names| == 1 then names[0] else names[0] + "|" + Join(names[1..])
  }

  /** What the first pass adds up. */
  function Need(names: seq<string>): nat {
    if |names| == 0 then 0 else |names[0]| + 1 + Need(names[1..])
  }

  /** The first pass reserves exactly what the second writes, terminator included. */
  lemma {:induction false} NeedIsLength(names: seq<string>)
    requires names != []
    ensures Need(names) == |Join(names)| + 1
  {
    if |names| > 1 { NeedIsLength(names[1..]); }
  }

  /** The parts of s between bars. */
  function Split(s: string): (parts: seq<string>)
    ensures |parts| > 0
  {
    if s == "" then [""] else
      var rest := Split(s[1..]);
      if s[0] == '|' then [""] + rest else [[s[0]] + rest[0]] + rest[1..]
  }

  lemma {:induction false} SplitBar(name: string, s: string)
    requires '|' !in name
    ensures Split(name + "|" + s) == [name] + Split(s)
  {
    var all := name + "|" + s;
    if name == "" {
      assert all[1..] == s;
    } else {
      assert all[1..] == name[1..] + "|" + s;
      SplitBar(name[1..], s);
      assert [name[0]] + name[1..] == name;
      assert Split(name[1..] + "|" + s)[1..] == Split(s);
    }
  }

  lemma {:induction false} SplitName(name: string)
    requires '|' !in name
    ensures Split(name) == [name]
  {
    if name != "" {
      SplitName(name[1..]);
      assert [name[0]] + name[1..] == name;
    }
  }

  /** Names without bars can be told apart again. */
  lemma {:induction false} SplitJoin(names: seq<string>)
    requires names != [] && forall i :: 0 <= i < |names| ==> '|' !in names[i]
    ensures Split(Join(names)) == names
  {
    if |names| == 1 {
      SplitName(names[0]);
    } else {
      SplitJoin(names[1..]);
      SplitBar(names[0], Join(names[1..]));
    }
  }

  /** The text for a flag word. */
  function Text(flags: seq<Flag>, fval: int): string
    requires 0 - Pow(2, INT_BITS) <= fval
  {
    var s := Join(Names(flags, Unsigned(fval), 0));
    if s == "" then "0" else s
  }

  /**
    With names that contain no bar, the text splits into one name for each set bit in ascending
    order, unless the only set bit has an empty name: that reads as zero does.
   */
  lemma TextSplits(flags: seq<Flag>, fval: int)
    requires 0 - Pow(2, INT_BITS) <= fval
    requires forall i :: 0 <= i < |Names(flags, Unsigned(fval), 0)| ==> '|' !in Names(flags, Unsigned(fval), 0)[i]
    ensures var names := Names(flags, Unsigned(fval), 0);
            && (Split(Text(flags, fval)) == names <==> names != [] && names != [""])
            && (names == [] || names == [""] ==> Text(flags, fval) == "0")
            && (names == [] <==> Unsigned(fval) == 0)
  {
    var names := Names(flags, Unsigned(fval), 0);
    SomeName(flags, Unsigned(fval), 0);
    if names != [] { SplitJoin(names); }
    if names == [] || names == [""] {
      SplitName("0");
    }
  }

  // ---------------------------------------------------------------- the code

  /** The search through the table, from its end. */
  method FindFlag(flags: seq<Flag>, value: int) returns (fp: int)
    ensures fp == LastFlag(flags, value, |flags|)
  {
    fp := |flags| - 1;
    while fp >= 0
      invariant -1 <= fp < |flags| && LastFlag(flags, value, |flags|) == LastFlag(flags, value, fp + 1)
      decreases fp
    {
      if flags[fp].value == value { break; }
      fp := fp - 1;
    }
  }

  /** Characters are copied one after the other, without a terminator. */
  method CopyChars(buf: array<char>, at: nat, s: string) returns (p1: nat)
    requires at + |s| <= buf.Length
    modifies buf
    ensures p1 == at + |s| && buf[..p1] == old(buf[..at]) + s
  {
    p1 := at;
    for i := 0 to |s|
      invariant p1 == at + i && buf[..p1] == old(buf[..at]) + s[..i]
    {
      buf[p1] := s[i];
      p1 := p1 + 1;
      assert s[..i + 1] == s[..i] + [s[i]];
      assert buf[..p1] == buf[..p1 - 1] + [s[i]];
    }
    assert s[..|s|] == s;
  }

  /** The first pass. */
  method Measure(flags: seq<Flag>, fval: int) returns (needlen: nat)
    requires 0 - Pow(2, INT_BITS - 1) <= fval < Pow(2, INT_BITS - 1)
    ensures needlen == Need(Names(flags, Unsigned(fval), 0))
  {
    UnsignedFits(fval);
    needlen := 0;
    var ftmp: nat, n := Unsigned(fval), 0;
    while ftmp != 0
      invariant n <= INT_BITS && ftmp < Pow(2, INT_BITS - n)
      invariant needlen + Need(Names(flags, ftmp, n)) == Need(Names(flags, Unsigned(fval), 0))
      decreases ftmp
    {
      BitInRange(ftmp, n);
      NamesStep(flags, ftmp, n);
      if ftmp % 2 == 1 {
        var fp := FindFlag(flags, Bit(n));
        needlen := needlen + |if fp >= 0 then flags[fp].name else Octal(Bit(n))| + 1;
      }
      ftmp, n := ftmp / 2, n + 1;
    }
  }

  lemma UnsignedFits(fval: int)
    requires 0 - Pow(2, INT_BITS - 1) <= fval < Pow(2, INT_BITS - 1)
    ensures 0 <= Unsigned(fval) < Pow(2, INT_BITS)
  {
    assert Pow(2, INT_BITS) == 2 * Pow(2, INT_BITS - 1);
  }

  /** While bits remain, the shift count is that of a bit of an int. */
  lemma BitInRange(ftmp: nat, n: nat)
    requires n <= INT_BITS && 0 < ftmp < Pow(2, INT_BITS - n)
    ensures n < INT_BITS && ftmp / 2 < Pow(2, INT_BITS - (n + 1))
  {
    assert n < INT_BITS;
    assert Pow(2, INT_BITS - n) == 2 * Pow(2, INT_BITS - n - 1);
  }

  /** One bit less to go. */
  lemma NamesStep(flags: seq<Flag>, ftmp: nat, n: nat)
    requires ftmp != 0
    ensures var names, rest := Names(flags, ftmp, n), Names(flags, ftmp / 2, n + 1);
            if ftmp % 2 == 1
            then Need(names) == |Name(flags, n)| + 1 + Need(rest)
              && Join(names) == Name(flags, n) + if ftmp / 2 != 0 then "|" + Join(rest) else ""
            else Need(names) == Need(rest) && Join(names) == Join(rest)
  {
    var names, rest := Names(flags, ftmp, n), Names(flags, ftmp / 2, n + 1);
    SomeName(flags, ftmp / 2, n + 1);
    if ftmp % 2 == 1 { assert names == [Name(flags, n)] + rest && names[1..] == rest; } else { assert names == rest; }
  }

  /** One name, and a bar unless it is the last. */
  method WriteName(flags: seq<Flag>, n: nat, more: bool, buf: array<char>, at: nat) returns (p1: nat)
    requires at + |Name(flags, n)| + (if more then 1 else 0) <= buf.Length
    modifies buf
    ensures p1 <= buf.Length && buf[..p1] == old(buf[..at]) + Name(flags, n) + if more then "|" else ""
  {
    var fp := FindFlag(flags, Bit(n));
    p1 := CopyChars(buf, at, if fp >= 0 then flags[fp].name else Octal(Bit(n)));
    if more { p1 := CopyChars(buf, p1, "|"); }
  }

  /** The second pass, up to the special case of an empty text. */
  method Write(flags: seq<Flag>, fval: int, buf: array<char>) returns (p1: nat)
    requires 0 - Pow(2, INT_BITS - 1) <= fval < Pow(2, INT_BITS - 1)
    requires |Join(Names(flags, Unsigned(fval), 0))| <= buf.Length
    modifies buf
    ensures p1 <= buf.Length && buf[..p1] == Join(Names(flags, Unsigned(fval), 0))
  {
    UnsignedFits(fval);
    hide Names, Join, Name, Pow;
    p1 := 0;
    var ftmp: nat, n := Unsigned(fval), 0;
    ghost var text := Join(Names(flags, ftmp, n));
    while ftmp != 0
      invariant n <= INT_BITS && ftmp < Pow(2, INT_BITS - n)
      invariant p1 <= buf.Length && buf[..p1] + Join(Names(flags, ftmp, n)) == text
      decreases ftmp
    {
      BitInRange(ftmp, n);
      NamesStep(flags, ftmp, n);
      if ftmp % 2 == 1 {
        Chain(buf[..p1], Name(flags, n), Join(Names(flags, ftmp / 2, n + 1)));
        p1 := WriteName(flags, n, ftmp / 2 != 0, buf, p1);
      }
      ftmp, n := ftmp / 2, n + 1;
    }
    NothingLeft(flags, n);
    assert buf[..p1] + "" == buf[..p1];
  }

  lemma NothingLeft(flags: seq<Flag>, n: nat)
    ensures Join(Names(flags, 0, n)) == ""
  {
  }

  lemma Chain(written: string, name: string, rest: string)
    ensures written + (name + ("|" + rest)) == written + name + "|" + rest
    ensures written + (name + "") == written + name + "" + ""
  {
  }

  lemma {:induction false} NamesNulFree(flags: seq<Flag>, ftmp: nat, n: nat)
    requires forall i :: 0 <= i < |flags| ==> NUL !in flags[i].name
    ensures NUL !in Join(Names(flags, ftmp, n))
  {
    if ftmp > 0 {
      NamesNulFree(flags, ftmp / 2, n + 1);
      NamesStep(flags, ftmp, n);
      OctalNulFree(Bit(n));
    }
  }

  lemma OctalNulFree(v: int)
    ensures NUL !in Octal(v)
  {
    var u := if v < 0 then v + Pow(2, LONG_BITS) else v;
    if u > 0 { DigitsAreDigits(u, 8); }
  }

  /** What is asked for is exactly the length of the text and its terminator. */
  lemma Reserves(flags: seq<Flag>, fval: int)
    requires 0 - Pow(2, INT_BITS) <= fval
    ensures var need := Need(Names(flags, Unsigned(fval), 0));
            (if need > 2 then need else 2) == |Text(flags, fval)| + 1
  {
    var names := Names(flags, Unsigned(fval), 0);
    if names != [] { NeedIsLength(names); }
  }

  /** Size, allocate and write one text: no write goes beyond what the first pass asked for. */
  method Show(flags: seq<Flag>, fval: int, buffer: Buffer<char>, granted: bool, back: Answer) returns (r: array?<char>)
    requires buffer.Valid() && 0 - Pow(2, INT_BITS - 1) <= fval < Pow(2, INT_BITS - 1)
    requires forall i :: 0 <= i < |flags| ==> NUL !in flags[i].name
    modifies buffer, buffer.bp
    ensures buffer.Valid() && (buffer.bp == old(buffer.bp) || buffer.bp == null || fresh(buffer.bp))
    ensures r == null <==> old(buffer.len) <= |Text(flags, fval)| && !granted
    ensures r != null ==> r == buffer.bp && CString(r[..], 0, Text(flags, fval))
  {
    UnsignedFits(fval);
    ghost var names := Names(flags, Unsigned(fval), 0);
    NamesNulFree(flags, Unsigned(fval), 0);
    var needlen := Measure(flags, fval);
    Reserves(flags, fval);
    var rc := buffer.Check(if needlen > 2 then needlen else 2, granted, back);
    if rc < 0 { return null; }
    r := buffer.bp;
    if names != [] { NeedIsLength(names); }
    var p1 := Write(flags, fval, r);
    ghost var text := r[..p1];
    if p1 == 0 {
      p1 := CopyChars(r, 0, "0");
      text := "0";
    }
    assert r[..p1] == text == Text(flags, fval);
    r[p1] := NUL;
    assert r[..][0..p1] == r[..p1];
  }

  class FlagNames {
    const buffers: seq<Buffer<char>>
    var count: nat
    /** The text that each buffer shows, if the call that used it last succeeded. */
    ghost var shown: seq<Option<string>>

    ghost predicate Valid()
      reads this, buffers, set b | b in buffers && b.bp != null :: b.bp
    {
      && |buffers| == |shown| == NFBUF && count < NFBUF && buffers[0] != buffers[1]
      && buffers[0].Valid() && buffers[1].Valid()
      && (buffers[0].bp == null || buffers[0].bp != buffers[1].bp)
      && forall i :: 0 <= i < NFBUF && shown[i].Some? ==>
           buffers[i].bp != null && CString(buffers[i].Contents(), 0, shown[i].value)
    }

    constructor ()
      ensures Valid() && shown == [None, None]
    {
      var b0 := new Buffer<char>();
      var b1 := new Buffer<char>();
      buffers, count, shown := [b0, b1], 0, [None, None];
    }

    /**
      tet_f2a(), given the answers of malloc() and realloc(): null stands for the empty string that a failure
      answers.  The text shown by the call before is left alone.
     */
    method F2a(fval: int, flags: seq<Flag>, granted: bool, back: Answer) returns (r: array?<char>)
      requires Valid() && 0 - Pow(2, INT_BITS - 1) <= fval < Pow(2, INT_BITS - 1)
      requires forall i :: 0 <= i < |flags| ==> NUL !in flags[i].name
      modifies this, buffers, set b | b in buffers && b.bp != null :: b.bp
      ensures Valid() && count == (old(count) + 1) % NFBUF
      ensures shown == old(shown)[count := if r == null then None else Some(Text(flags, fval))]
      ensures r == null <==> old(buffers[(count + 1) % NFBUF].len) <= |Text(flags, fval)| && !granted
      ensures r != null ==> r == buffers[count].bp
      ensures buffers[old(count)].bp == old(buffers[count].bp)
    {
      hide CString, Text;
      count := count + 1;
      if count >= NFBUF { count := 0; }
      r := Show(flags, fval, buffers[count], granted, back);
      shown := shown[count := if r == null then None else Some(Text(flags, fval))];
    }
  }
}

/**
  What a journal line says about itself: the text up to its second bar is split at bars and blanks, and
  the fields are read as numbers.
 */
module LineStamp {
  import opened Numerals
  import opened Journal

  // ---------------------------------------------------------------- fields

  predicate IsCut(c: char) {
    c == ' ' || c == '|'
  }

  /** The text before its first bar, */
  function BeforeBar(s: string): (r: string)
    ensures |r| <= |s|
  {
    if s == [] || s[0] == '|' then [] else [s[0]] + BeforeBar(s[1..])
  }

  /** and before its second one. */
  function Head(line: string): string {
    var first := BeforeBar(line);
    if |first| == |line| then line else first + "|" + BeforeBar(line[|first| + 1..])
  }

  function BeforeCut(s: string): (r: string)
    ensures |r| <= |s|
  {
    if s == [] || IsCut(s[0]) then [] else [s[0]] + BeforeCut(s[1..])
  }

  /** What lies between bars and blanks. */
  function Fields(s: string): (fields: seq<string>)
    ensures |fields| >= 1
  {
    var first := BeforeCut(s);
    if |first| == |s| then [s] else [first] + Fields(s[|first| + 1..])
  }

  predicate Whole(s: string) {
    forall i :: 0 <= i < |s| ==> !IsCut(s[i])
  }

  lemma {:induction false} BeforeCutIs(a: string, b: string)
    requires Whole(a) && (b == [] || IsCut(b[0]))
    ensures BeforeCut(a + b) == a
  {
    if a == [] {
      assert a + b == b;
    } else {
      assert (a + b)[1..] == a[1..] + b && (a + b)[0] == a[0];
      BeforeCutIs(a[1..], b);
    }
  }

  lemma {:induction false} BeforeBarIs(a: string, b: string)
    requires '|' !in a && (b == [] || b[0] == '|')
    ensures BeforeBar(a + b) == a
  {
    if a == [] {
      assert a + b == b;
    } else {
      assert (a + b)[1..] == a[1..] + b && (a + b)[0] == a[0];
      BeforeBarIs(a[1..], b);
    }
  }

  lemma FirstField(a: string, cut: char, rest: string)
    requires Whole(a) && IsCut(cut)
    ensures Fields(a + [cut] + rest) == [a] + Fields(rest)
  {
    var s := a + [cut] + rest;
    assert s == a + ([cut] + rest);
    BeforeCutIs(a, [cut] + rest);
    assert s[|a| + 1..] == rest;
  }

  lemma OnlyField(a: string)
    requires Whole(a)
    ensures Fields(a) == [a]
  {
    assert a + [] == a;
    BeforeCutIs(a, []);
  }

  lemma HeadIs(a: string, b: string, rest: string)
    requires '|' !in a && '|' !in b
    ensures Head(a + "|" + b + "|" + rest) == a + "|" + b
  {
    var line := a + "|" + b + "|" + rest;
    assert line == a + ("|" + b + "|" + rest);
    BeforeBarIs(a, "|" + b + "|" + rest);
    assert line[|a| + 1..] == b + ("|" + rest);
    BeforeBarIs(b, "|" + rest);
  }

  // ---------------------------------------------------------------- numbers

  /** The one usual way to write n: no leading zeros, and no sign but a minus. */
  predicate Numeral(s: string, n: int) {
    && Parse(s) == n && s != []
    && (if s[0] == '-' then n < 0 && |s| > 1 && s[1] != '0' && OnlyDigits(s[1..])
        else OnlyDigits(s) && (s[0] == '0' ==> s == "0"))
  }

  lemma {:induction false} DigitsLead(n: nat)
    requires n > 0
    ensures Digits(n, 10)[0] != '0'
    decreases n
  {
    if n >= 10 { DigitsLead(n / 10); }
  }

  lemma DecimalIsNumeral(n: int)
    ensures Numeral(Decimal(n), n) && Whole(Decimal(n))
  {
    ParseDecimal(n);
    var m := if n < 0 then -n else n;
    DigitsAreDigits(m, 10);
    if m > 0 { DigitsLead(m); }
    if n < 0 { assert Decimal(n)[1..] == Digits(m, 10); }
  }

  lemma {:induction false} ZerosAddNothing(k: int, s: string)
    ensures Value(Zeros(k) + s) == Value(s)
    decreases |s|
  {
    var t := Zeros(k) + s;
    if s == [] {
      ZerosAreNothing(k);
      assert t == Zeros(k);
    } else {
      ZerosAddNothing(k, s[..|s| - 1]);
      assert t[..|t| - 1] == Zeros(k) + s[..|s| - 1] && t[|t| - 1] == s[|s| - 1];
    }
  }

  lemma {:induction false} ZerosAreNothing(k: int)
    ensures Value(Zeros(k)) == 0
  {
    if k > 0 {
      ZerosOnly(k);
      ZerosOnly(k - 1);
      ZerosAreNothing(k - 1);
      assert Zeros(k)[..|Zeros(k)| - 1] == Zeros(k - 1);
    }
  }

  lemma ZerosAndDigits(k: int, d: string)
    requires OnlyDigits(d)
    ensures OnlyDigits(Zeros(k) + d) && |Zeros(k) + d| == |d| + if k > 0 then k else 0
  {
    ZerosOnly(k);
  }

  /** A number that is not negative, padded with zeros, still reads as that number. */
  lemma PaddedReads(n: nat, width: nat)
    ensures OnlyDigits(Padded(n, width)) && Value(Padded(n, width)) == n && |Padded(n, width)| >= width
    ensures n < Pow(10, width) && width >= 1 ==> |Padded(n, width)| == width
  {
    var d := Digits(n, 10);
    assert Decimal(n) == d && Padded(n, width) == Zeros(width - |d|) + d;
    DigitsAreDigits(n, 10);
    ValueOfDigits(n);
    if n < Pow(10, width) && width >= 1 { DigitsFit(n, width); }
    hide Digits, Decimal, Padded, Value, Zeros, Pow, OnlyDigits;
    ZerosAndDigits(width - |d|, d);
    ZerosAddNothing(width - |d|, d);
  }

  // ---------------------------------------------------------------- lines

  /**
    The six fields of a line: the kind of line, the activity, the test purpose, the system and the context
    in one, the block and the sequence number.  The system has three digits, if it fits them.
   */
  predicate Stamped(line: string, env: Env, seqno: int) {
    var f := Fields(Head(line));
    && |f| == 6 && Numeral(f[0], 520) && Numeral(f[1], env.activity) && Numeral(f[2], env.thistest)
    && Numeral(f[4], env.block) && Numeral(f[5], seqno)
    && (0 <= env.sysid < 1000 && env.context >= 0 ==>
          |f[3]| >= 8 && OnlyDigits(f[3]) && Value(f[3][..3]) == env.sysid && Value(f[3][3..]) == env.context)
  }

  ghost predicate AllStamped(lines: seq<string>, env: Env, seqno: int) {
    forall k {:trigger lines[k]} :: 0 <= k < |lines| ==> Stamped(lines[k], env, seqno + k)
  }

  lemma StampedMore(lines: seq<string>, line: string, env: Env, seqno: int)
    requires AllStamped(lines, env, seqno) && Stamped(line, env, seqno + |lines|)
    ensures AllStamped(lines + [line], env, seqno)
  {
    hide Stamped;
  }

  lemma PaddedIsWhole(n: int, width: nat)
    ensures Whole(Padded(n, width))
  {
    ZerosOnly(width - |Decimal(n)|);
    DecimalCharacters(n);
  }

  /** The field of the system and the context. */
  function ContextField(env: Env): (f: string)
    ensures Whole(f)
  {
    PaddedIsWhole(env.sysid, 3);
    PaddedIsWhole(env.context, 5);
    Padded(env.sysid, 3) + Padded(env.context, 5)
  }

  lemma ContextReads(env: Env)
    requires 0 <= env.sysid < 1000 && env.context >= 0
    ensures var f := ContextField(env);
            |f| >= 8 && OnlyDigits(f) && Value(f[..3]) == env.sysid && Value(f[3..]) == env.context
  {
    assert Pow(10, 3) == 1000;
    PaddedReads(env.sysid, 3);
    PaddedReads(env.context, 5);
    var f := Padded(env.sysid, 3) + Padded(env.context, 5);
    assert f[..3] == Padded(env.sysid, 3) && f[3..] == Padded(env.context, 5);
  }

  /** Five fields with blanks between them. */
  function Five(a: string, t: string, c: string, b: string, q: string): string {
    a + " " + (t + " " + (c + " " + (b + " " + q)))
  }

  lemma FiveFields(a: string, t: string, c: string, b: string, q: string)
    requires Whole(a) && Whole(t) && Whole(c) && Whole(b) && Whole(q)
    ensures Fields(Five(a, t, c, b, q)) == [a, t, c, b, q]
  {
    hide Fields, Whole;
    OnlyField(q);
    FirstField(b, ' ', q);
    FirstField(c, ' ', b + " " + q);
    FirstField(t, ' ', c + " " + (b + " " + q));
    FirstField(a, ' ', t + " " + (c + " " + (b + " " + q)));
    assert [c] + ([b] + [q]) == [c, b, q];
    assert [a] + ([t] + [c, b, q]) == [a, t, c, b, q];
  }

  lemma NoBarInFive(a: string, t: string, c: string, b: string, q: string)
    requires Whole(a) && Whole(t) && Whole(c) && Whole(b) && Whole(q)
    ensures '|' !in Five(a, t, c, b, q)
  {
    assert forall i :: 0 <= i < |a| ==> !IsCut(a[i]);
    assert forall i :: 0 <= i < |t| ==> !IsCut(t[i]);
    assert forall i :: 0 <= i < |c| ==> !IsCut(c[i]);
    assert forall i :: 0 <= i < |b| ==> !IsCut(b[i]);
    assert forall i :: 0 <= i < |q| ==> !IsCut(q[i]);
  }

  lemma Regrouped(k: string, a: string, t: string, c: string, b: string, q: string)
    ensures k + "|" + a + " " + t + " " + (c + " " + b + " " + q + "|") == k + "|" + Five(a, t, c, b, q) + "|"
  {
    assert c + " " + b + " " + q == c + " " + (b + " " + q);
  }

  lemma PreambleParts(env: Env, seqno: int)
    ensures Preamble(env, seqno)
            == Decimal(TET_JNL_TC_INFO) + "|"
               + Five(Decimal(env.activity), Decimal(env.thistest), ContextField(env),
                      Decimal(env.block), Decimal(seqno))
               + "|"
  {
    hide Decimal, Padded, Five;
    Regrouped(Decimal(TET_JNL_TC_INFO), Decimal(env.activity), Decimal(env.thistest), ContextField(env),
              Decimal(env.block), Decimal(seqno));
  }

  lemma PreambleFields(env: Env, seqno: int, rest: string)
    ensures Fields(Head(Preamble(env, seqno) + rest))
            == [Decimal(TET_JNL_TC_INFO), Decimal(env.activity), Decimal(env.thistest), ContextField(env),
                Decimal(env.block), Decimal(seqno)]
  {
    PreambleParts(env, seqno);
    DecimalIsNumeral(TET_JNL_TC_INFO);
    DecimalIsNumeral(env.activity);
    DecimalIsNumeral(env.thistest);
    DecimalIsNumeral(env.block);
    DecimalIsNumeral(seqno);
    hide Decimal, ContextField, Numeral, Preamble;
    SixFields(Decimal(TET_JNL_TC_INFO), Decimal(env.activity), Decimal(env.thistest), ContextField(env),
              Decimal(env.block), Decimal(seqno), rest);
  }

  lemma SixFields(k: string, a: string, t: string, c: string, b: string, q: string, rest: string)
    requires Whole(k) && Whole(a) && Whole(t) && Whole(c) && Whole(b) && Whole(q)
    ensures Fields(Head(k + "|" + Five(a, t, c, b, q) + "|" + rest)) == [k, a, t, c, b, q]
  {
    FiveFields(a, t, c, b, q);
    NoBarInFive(a, t, c, b, q);
    assert '|' !in k by { assert forall i :: 0 <= i < |k| ==> !IsCut(k[i]); }
    hide Five, Fields, Whole, Head;
    HeadIs(k, Five(a, t, c, b, q), rest);
    FirstField(k, '|', Five(a, t, c, b, q));
  }

  /** Every preamble says what it was made from, whatever the line goes on with. */
  lemma PreambleStamped(env: Env, seqno: int, rest: string)
    ensures Stamped(Preamble(env, seqno) + rest, env, seqno)
  {
    hide Decimal, Preamble, Fields, Head, Numeral, Value, OnlyDigits, Whole, ContextField;
    PreambleFields(env, seqno, rest);
    DecimalIsNumeral(TET_JNL_TC_INFO);
    DecimalIsNumeral(env.activity);
    DecimalIsNumeral(env.thistest);
    DecimalIsNumeral(env.block);
    DecimalIsNumeral(seqno);
    if 0 <= env.sysid < 1000 && env.context >= 0 { ContextReads(env); }
  }

  /** The lines of a text carry the successive sequence numbers. */
  lemma TextStamped(lines: seq<string>, text: string, env: Env, seqno: int, n: nat)
    requires AreLines(lines, text, Preambles(env, seqno, n))
    ensures AllStamped(lines, env, seqno)
  {
    var pre := Preambles(env, seqno, n);
    hide Stamped;
    forall k | 0 <= k < |lines| ensures Stamped(lines[k], env, seqno + k) {
      assert IsLine(lines[k], text, pre, k);
      PreambleStamped(env, seqno + k, Body(text, pre, k));
    }
  }
}

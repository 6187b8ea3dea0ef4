/** How tet_vprintf() breaks a formatted text into journal lines, and the preamble that stamps each. */
module Journal {
  import opened Numerals
  import opened Bufchk
  import opened LineBuffer

  const TET_JNL_LEN := 512
  const TET_JNL_TC_INFO := 520

  /** isspace() in the C locale */
  predicate IsSpace(c: char) {
    c == ' ' || 9 as char <= c <= 13 as char
  }

  // ---------------------------------------------------------------- the preamble

  /** The values that stamp the lines of one call. */
  datatype Env = Env(activity: int, thistest: int, sysid: int, context: int, block: int)

  predicate Printable(s: string) {
    forall i :: 0 <= i < |s| ==> s[i] >= ' '
  }

  function Zeros(n: int): string {
    if n <= 0 then "" else "0" + Zeros(n - 1)
  }

  /** printf's %0<width>d */
  function Padded(n: int, width: nat): (s: string)
    ensures |s| <= if |Decimal(n)| < width then width else |Decimal(n)|
    ensures Printable(s)
  {
    ZerosOnly(width - |Decimal(n)|);
    DecimalCharacters(n);
    if n < 0 then "-" + Zeros(width - |Decimal(n)|) + Decimal(n)[1..] else Zeros(width - |Decimal(n)|) + Decimal(n)
  }

  lemma {:induction false} ZerosOnly(n: int)
    ensures |Zeros(n)| == (if n <= 0 then 0 else n) && forall i :: 0 <= i < |Zeros(n)| ==> Zeros(n)[i] == '0'
  {
    if n > 0 { ZerosOnly(n - 1); }
  }

  /** Whose line it is, */
  function Heading(env: Env): (s: string)
    ensures Printable(s)
  {
    DecimalCharacters(TET_JNL_TC_INFO);
    DecimalCharacters(env.activity);
    DecimalCharacters(env.thistest);
    Decimal(TET_JNL_TC_INFO) + "|" + Decimal(env.activity) + " " + Decimal(env.thistest) + " "
  }

  function Context(env: Env): (s: string)
    ensures Printable(s)
  {
    Padded(env.sysid, 3) + Padded(env.context, 5) + " "
  }

  /** and its context, block and sequence number. */
  function Stamp(env: Env, seqno: int): (s: string)
    ensures Printable(s)
  {
    DecimalCharacters(env.block);
    DecimalCharacters(seqno);
    Context(env) + Decimal(env.block) + " " + Decimal(seqno) + "|"
  }

  function Preamble(env: Env, seqno: int): (s: string)
    ensures Printable(s)
  {
    Heading(env) + Stamp(env, seqno)
  }

  /** With 32-bit ints and 64-bit longs no preamble comes near the length of a line. */
  lemma PreambleLength(env: Env, seqno: int)
    requires IsLong(env.activity, 64) && IsLong(env.thistest, 32) && IsLong(env.sysid, 32)
    requires IsLong(env.context, 64) && IsLong(env.block, 64) && IsLong(seqno, 64)
    ensures |Preamble(env, seqno)| <= 132
  {
    LongsFit(env.activity, 64);
    LongsFit(env.thistest, 32);
    LongsFit(env.sysid, 32);
    LongsFit(env.context, 64);
    LongsFit(env.block, 64);
    LongsFit(seqno, 64);
    assert IsLong(TET_JNL_TC_INFO, 32) by { assert Pow(2, 10) == 1024; PowGrows(2, 10, 31); }
    LongsFit(TET_JNL_TC_INFO, 32);
  }

  /** The preambles of n successive lines. */
  function Preambles(env: Env, seqno: int, n: nat): (pre: seq<string>)
    ensures |pre| == n
  {
    seq(n, k => Preamble(env, seqno + k))
  }

  /** Every preamble leaves room for at least one more character. */
  predicate Short(pre: seq<string>) {
    forall k :: 0 <= k < |pre| ==> |pre[k]| < TET_JNL_LEN - 1
  }

  /** Without overflow of the sequence number, the preambles of a call are always short enough. */
  lemma PreamblesShort(env: Env, seqno: int, n: nat)
    requires IsLong(env.activity, 64) && IsLong(env.thistest, 32) && IsLong(env.sysid, 32)
    requires IsLong(env.context, 64) && IsLong(env.block, 64) && IsLong(seqno, 64) && IsLong(seqno + n, 64)
    ensures Short(Preambles(env, seqno, n))
  {
    forall k | 0 <= k < n ensures |Preambles(env, seqno, n)[k]| < TET_JNL_LEN - 1 {
      PreambleLength(env, seqno + k);
    }
  }

  predicate IsPreamble(s: string, env: Env, seqno: int) {
    s == Preamble(env, seqno)
  }

  // ---------------------------------------------------------------- where lines break

  /** Characters up to the next newline or the end of the text. */
  function NatLen(text: string, i: nat): (n: nat)
    requires i <= |text|
    ensures i + n <= |text|
    decreases |text| - i
  {
    if i == |text| || text[i] == '\n' then 0 else NatLen(text, i + 1) + 1
  }

  lemma {:induction false} NatLenIs(text: string, i: nat)
    requires i <= |text|
    ensures var n := NatLen(text, i);
            && (i + n < |text| ==> text[i + n] == '\n')
            && forall k :: i <= k < i + n ==> text[k] != '\n'
    decreases |text| - i
  {
    if i < |text| { NatLenIs(text, i + 1); }
  }

  /** The last position from i + 1 to i + p that holds white space, as a distance from i, or 0. */
  function LastSpace(text: string, i: nat, p: nat): (q: nat)
    requires i + p < |text|
    ensures q <= p
  {
    if p == 0 || IsSpace(text[i + p]) then p else LastSpace(text, i, p - 1)
  }

  lemma {:induction false} LastSpaceIs(text: string, i: nat, p: nat)
    requires i + p < |text|
    ensures var q := LastSpace(text, i, p);
            && (q > 0 ==> IsSpace(text[i + q]))
            && forall k :: i + q < k <= i + p ==> !IsSpace(text[k])
  {
    if p > 0 { LastSpaceIs(text, i, p - 1); }
  }

  /** How much of the text goes on a line that starts at i after a preamble of the given length. */
  function LineLen(text: string, i: nat, prelen: nat): nat
    requires i <= |text| && prelen < TET_JNL_LEN
  {
    var n, room := NatLen(text, i), TET_JNL_LEN - 1 - prelen;
    if n + prelen < TET_JNL_LEN then n else
      var q := LastSpace(text, i, room);
      if q > 0 then q else room
  }

  /** A line is cut only where a newline, the end, white space or the length limit requires it. */
  lemma BreakIsGreedy(text: string, i: nat, prelen: nat)
    requires i <= |text| && prelen < TET_JNL_LEN
    ensures var n, room := LineLen(text, i, prelen), TET_JNL_LEN - 1 - prelen;
            && i + n <= |text| && n <= room
            && (forall k :: i <= k < i + n ==> text[k] != '\n')
            && (i + n == |text| || text[i + n] == '\n'
                || (n > 0 && IsSpace(text[i + n])
                    && forall k :: i + n < k <= i + room ==> k < |text| && !IsSpace(text[k]))
                || (n == room && forall k :: i < k <= i + n ==> !IsSpace(text[k])))
  {
    NatLenIs(text, i);
    if NatLen(text, i) + prelen >= TET_JNL_LEN { LastSpaceIs(text, i, TET_JNL_LEN - 1 - prelen); }
  }

  /** The part of the text on that line. */
  function BodyAt(text: string, i: nat, prelen: nat): string
    requires i <= |text| && prelen < TET_JNL_LEN
  {
    text[i..i + LineLen(text, i, prelen)]
  }

  /** The newline that ended the line, if one did. */
  function EndAt(text: string, i: nat, prelen: nat): string
    requires i <= |text| && prelen < TET_JNL_LEN
  {
    var e := i + LineLen(text, i, prelen);
    if e < |text| && text[e] == '\n' then "\n" else ""
  }

  /** Where the next line starts: a newline that ended this one is consumed. */
  function Next(text: string, i: nat, prelen: nat): (j: nat)
    requires i <= |text| && prelen < TET_JNL_LEN
    ensures i <= j <= |text|
  {
    var e := i + LineLen(text, i, prelen);
    if e < |text| && text[e] == '\n' then e + 1 else e
  }

  lemma LineTaken(before: string, text: string, i: nat, prelen: nat)
    requires i <= |text| && prelen < TET_JNL_LEN && before == text[..i]
    ensures before + BodyAt(text, i, prelen) + EndAt(text, i, prelen) == text[..Next(text, i, prelen)]
  {
    var e := i + LineLen(text, i, prelen);
    assert text[..i] + text[i..e] == text[..e];
  }

  /** A preamble of 511 characters makes the loop stand still, unless the line is empty anyway. */
  lemma ProgressIff(text: string, i: nat, prelen: nat)
    requires i < |text| && prelen < TET_JNL_LEN
    ensures Next(text, i, prelen) > i <==> prelen < TET_JNL_LEN - 1 || text[i] == '\n'
  {
  }

  // ---------------------------------------------------------------- the lines of a text

  /** Where line k starts. */
  function Start(text: string, pre: seq<string>, k: nat): (i: nat)
    requires Short(pre) && k <= |pre|
    ensures i <= |text|
  {
    if k == 0 then 0 else Next(text, Start(text, pre, k - 1), |pre[k - 1]|)
  }

  /** The part of the text on line k. */
  function Body(text: string, pre: seq<string>, k: nat): string
    requires Short(pre) && k < |pre|
  {
    BodyAt(text, Start(text, pre, k), |pre[k]|)
  }

  /** None of the first n lines but perhaps the last uses up the text. */
  ghost predicate Unfinished(text: string, pre: seq<string>, n: nat)
    requires Short(pre) && n <= |pre|
  {
    forall k {:trigger Start(text, pre, k)} :: 0 < k < n ==> Start(text, pre, k) < |text|
  }

  lemma UnfinishedMore(text: string, pre: seq<string>, n: nat)
    requires Short(pre) && n < |pre| && Unfinished(text, pre, n) && (n == 0 || Start(text, pre, n) < |text|)
    ensures Unfinished(text, pre, n + 1)
  {
  }

  /** n is the number of lines: the least positive number of lines that use up the text. */
  ghost predicate LineCount(text: string, pre: seq<string>, n: nat) {
    && Short(pre) && 0 < n <= |pre| && Start(text, pre, n) == |text| && Unfinished(text, pre, n)
  }

  /** The first n bodies, with a newline after each line that a newline ended. */
  function Rejoined(text: string, pre: seq<string>, n: nat): string
    requires Short(pre) && n <= |pre|
  {
    if n == 0 then "" else
      var i := Start(text, pre, n - 1);
      Rejoined(text, pre, n - 1) + BodyAt(text, i, |pre[n - 1]|) + EndAt(text, i, |pre[n - 1]|)
  }

  lemma {:induction false} RejoinedPrefix(text: string, pre: seq<string>, n: nat)
    requires Short(pre) && n <= |pre|
    ensures Rejoined(text, pre, n) == text[..Start(text, pre, n)]
  {
    if n > 0 {
      RejoinedPrefix(text, pre, n - 1);
      LineTaken(Rejoined(text, pre, n - 1), text, Start(text, pre, n - 1), |pre[n - 1]|);
    }
  }

  /** Nothing of the text is lost, added or moved. */
  lemma NothingLost(text: string, pre: seq<string>, n: nat)
    requires LineCount(text, pre, n)
    ensures Rejoined(text, pre, n) == text
  {
    RejoinedPrefix(text, pre, n);
  }

  /** Every line before the last uses up some of the text, so there are at most |text| + 1 lines. */
  lemma {:induction false} StartAdvances(text: string, pre: seq<string>, k: nat)
    requires Short(pre) && k <= |pre| && Unfinished(text, pre, k)
    ensures text != "" ==> Start(text, pre, k) >= k
  {
    if k > 0 && text != "" {
      StartAdvances(text, pre, k - 1);
      ProgressIff(text, Start(text, pre, k - 1), |pre[k - 1]|);
    }
  }

  /** The journal line of number k. */
  function LineText(text: string, pre: seq<string>, k: nat): string
    requires Short(pre) && k < |pre|
  {
    pre[k] + Body(text, pre, k)
  }

  /** No journal line is longer than 511 characters or contains a newline after its preamble. */
  lemma LineFits(text: string, pre: seq<string>, k: nat)
    requires Short(pre) && k < |pre|
    ensures |LineText(text, pre, k)| < TET_JNL_LEN
    ensures '\n' !in Body(text, pre, k)
  {
    BreakIsGreedy(text, Start(text, pre, k), |pre[k]|);
  }

  // ---------------------------------------------------------------- memory

  /** There is a line of number k. */
  predicate HasLine(text: string, pre: seq<string>, k: nat)
    requires Short(pre)
  {
    k < |pre| && (k == 0 || Start(text, pre, k) < |text|)
  }

  /** What happens to the requests for memory, in their order: line k makes two of them. */
  predicate Granted(memory: nat -> Growth, k: nat) {
    memory(2 * k).granted && memory(2 * k + 1).granted
  }

  /** Every line of the text gets its memory. */
  ghost predicate HasMemory(text: string, pre: seq<string>, memory: nat -> Growth)
    requires Short(pre)
  {
    forall k: nat :: HasLine(text, pre, k) ==> Granted(memory, k)
  }

  /** Once the text is used up there is no further line. */
  lemma {:induction false} StaysAtEnd(text: string, pre: seq<string>, n: nat, k: nat)
    requires Short(pre) && n <= k <= |pre| && Start(text, pre, n) == |text|
    ensures Start(text, pre, k) == |text|
  {
    if n < k { StaysAtEnd(text, pre, n, k - 1); }
  }

  predicate GrantedSoFar(memory: nat -> Growth, n: nat) {
    forall k :: 0 <= k < n ==> Granted(memory, k)
  }

  lemma NothingYet(text: string, pre: seq<string>, memory: nat -> Growth)
    requires Short(pre) && |pre| == |text| + 1
    ensures Underway([], text, pre, 0) && GrantedSoFar(memory, 0)
  {
  }

  /** A refusal for the next line settles the matter; otherwise all is granted so far. */
  lemma NextGranted(lines: seq<string>, text: string, pre: seq<string>, inptr: nat, memory: nat -> Growth)
    requires Underway(lines, text, pre, inptr) && |lines| < |pre| && (lines == [] || inptr < |text|)
    requires GrantedSoFar(memory, |lines|)
    ensures if Granted(memory, |lines|) then GrantedSoFar(memory, |lines| + 1) else !HasMemory(text, pre, memory)
  {
    assert HasLine(text, pre, |lines|);
  }

  lemma AllGranted(lines: seq<string>, text: string, pre: seq<string>, memory: nat -> Growth)
    requires AreLines(lines, text, pre) && GrantedSoFar(memory, |lines|)
    ensures HasMemory(text, pre, memory)
  {
    forall k: nat | HasLine(text, pre, k) ensures Granted(memory, k) { LinesAreAll(lines, text, pre, k); }
  }

  /** The lines of a text are as many as there are. */
  lemma LinesAreAll(lines: seq<string>, text: string, pre: seq<string>, k: nat)
    requires AreLines(lines, text, pre)
    ensures HasLine(text, pre, k) <==> k < |lines|
  {
    if |lines| <= k < |pre| { StaysAtEnd(text, pre, |lines|, k); }
    if 0 < k < |lines| { assert Start(text, pre, k) < |text|; }
  }

  // ---------------------------------------------------------------- the code

  /** strchr() for the newline, and the backward search for white space. */
  method NextLength(text: string, inptr: nat, prelen: nat) returns (len: nat)
    requires inptr <= |text| && prelen < TET_JNL_LEN
    ensures len == LineLen(text, inptr, prelen)
  {
    var endp := inptr;
    while endp < |text| && text[endp] != '\n'
      invariant inptr <= endp <= |text| && NatLen(text, inptr) == endp - inptr + NatLen(text, endp)
    {
      endp := endp + 1;
    }
    len := endp - inptr;
    if len + prelen >= TET_JNL_LEN {
      len := TET_JNL_LEN - prelen - 1;
      endp := inptr + len;
      while endp > inptr
        invariant inptr <= endp <= inptr + len
        invariant LastSpace(text, inptr, len) == LastSpace(text, inptr, endp - inptr)
      {
        if IsSpace(text[endp]) { break; }
        endp := endp - 1;
      }
      if endp > inptr { len := endp - inptr; }
    }
  }

  predicate IsLine(line: string, text: string, pre: seq<string>, k: nat)
    requires Short(pre) && k < |pre|
  {
    line == LineText(text, pre, k)
  }

  /** The lines that the assembly loop has put in the buffer. */
  ghost predicate Assembled(lines: seq<string>, text: string, pre: seq<string>) {
    Short(pre) && |lines| <= |pre|
    && forall k {:trigger IsLine(lines[k], text, pre, k)} :: 0 <= k < |lines| ==> IsLine(lines[k], text, pre, k)
  }

  lemma AssembledMore(lines: seq<string>, line: string, text: string, pre: seq<string>)
    requires Assembled(lines, text, pre) && |lines| < |pre| && IsLine(line, text, pre, |lines|)
    ensures Assembled(lines + [line], text, pre)
  {
    var more := lines + [line];
    forall k | 0 <= k < |more| ensures IsLine(more[k], text, pre, k) {
      if k < |lines| { assert IsLine(lines[k], text, pre, k); }
    }
  }

  /** All lines of the text. */
  ghost predicate AreLines(lines: seq<string>, text: string, pre: seq<string>) {
    Assembled(lines, text, pre) && LineCount(text, pre, |lines|)
  }

  /** sprintf() of the preamble */
  method MakePreamble(env: Env, seqno: int, ghost expected: string) returns (s: string)
    requires IsPreamble(expected, env, seqno)
    ensures s == expected
  {
    s := Preamble(env, seqno);
  }

  /** Format the next line and move past the part of the text that is on it. */
  method FormatLine(text: string, inptr: nat, env: Env, seqno: int, ghost pre: seq<string>, ghost k: nat)
    returns (linebuf: string, next: nat)
    requires Short(pre) && k < |pre| && IsPreamble(pre[k], env, seqno) && inptr == Start(text, pre, k)
    ensures IsLine(linebuf, text, pre, k) && next == Start(text, pre, k + 1)
  {
    linebuf := MakePreamble(env, seqno, pre[k]);
    var len := NextLength(text, inptr, |linebuf|);
    linebuf := linebuf + text[inptr..inptr + len];
    next := inptr + len;
    if next < |text| && text[next] == '\n' { next := next + 1; }
  }

  /** The state of the assembly loop: these lines are in the buffer and the next one starts at inptr. */
  ghost predicate Underway(lines: seq<string>, text: string, pre: seq<string>, inptr: nat) {
    && |pre| == |text| + 1 && Assembled(lines, text, pre) && inptr == Start(text, pre, |lines|)
    && Unfinished(text, pre, |lines|)
  }

  /** There is a preamble for every line. */
  lemma UnderwayRoom(lines: seq<string>, text: string, pre: seq<string>, inptr: nat)
    requires Underway(lines, text, pre, inptr) && (lines == [] || inptr < |text|)
    ensures |lines| < |pre|
  {
    StartAdvances(text, pre, |lines|);
  }

  lemma UnderwayMore(lines: seq<string>, line: string, text: string, pre: seq<string>, inptr: nat, next: nat)
    requires Underway(lines, text, pre, inptr) && |lines| < |pre| && (lines == [] || inptr < |text|)
    requires IsLine(line, text, pre, |lines|) && next == Start(text, pre, |lines| + 1)
    ensures Underway(lines + [line], text, pre, next)
  {
    UnfinishedMore(text, pre, |lines|);
    AssembledMore(lines, line, text, pre);
  }

  lemma UnderwayDone(lines: seq<string>, text: string, pre: seq<string>, inptr: nat)
    requires Underway(lines, text, pre, inptr) && lines != [] && inptr >= |text|
    ensures AreLines(lines, text, pre)
  {
  }

  /** One round of the assembly loop. */
  method AddNextLine(text: string, inptr: nat, env: Env, seqno: int, ghost pre: seq<string>, buf: LineBuffer,
                     memory: nat -> Growth)
    returns (ok: bool, next: nat)
    requires buf.Valid() && Underway(buf.lines, text, pre, inptr) && (buf.lines == [] || inptr < |text|)
    requires |buf.lines| < |pre| && IsPreamble(pre[|buf.lines|], env, seqno)
    modifies buf, buf.outbuf, buf.outbuf.bp, buf.lineoffsets, buf.lineoffsets.bp
    ensures ok <==> Granted(memory, |old(buf.lines)|)
    ensures ok ==> buf.Valid() && |buf.lines| == |old(buf.lines)| + 1 && Underway(buf.lines, text, pre, next)
    ensures ok ==> fresh(buf.outbuf.bp) && fresh(buf.lineoffsets.bp)
  {
    ghost var lines := buf.lines;
    hide Granted, Short, IsPreamble;
    var linebuf;
    linebuf, next := FormatLine(text, inptr, env, seqno, pre, |lines|);
    UnderwayMore(lines, linebuf, text, pre, inptr, next);
    hide Underway;
    var first, second := Requests(memory, buf.noutlines);
    ok := buf.AddLine(linebuf, first, second);
  }

  /** What happens to the two requests for line k. */
  method Requests(memory: nat -> Growth, k: nat) returns (first: Growth, second: Growth)
    ensures Granted(memory, k) <==> first.granted && second.granted
  {
    first, second := memory(2 * k), memory(2 * k + 1);
  }

  /** The assembly loop, given what happens to its requests for memory. */
  method Assemble(text: string, env: Env, seqno: int, ghost pre: seq<string>, buf: LineBuffer, memory: nat -> Growth)
    returns (ok: bool)
    requires Short(pre) && |pre| == |text| + 1 && forall k :: 0 <= k < |pre| ==> IsPreamble(pre[k], env, seqno + k)
    requires buf.Valid() && buf.lines == [] && buf.outbuf.bp == null && buf.lineoffsets.bp == null
    modifies buf, buf.outbuf, buf.lineoffsets
    ensures ok <==> HasMemory(text, pre, memory)
    ensures ok ==> buf.Valid() && AreLines(buf.lines, text, pre)
    ensures ok ==> fresh(buf.outbuf.bp) && fresh(buf.lineoffsets.bp)
  {
    hide Underway, AreLines, HasMemory, GrantedSoFar, Granted, IsPreamble, Short;
    var inptr: nat, tetSequence := 0, seqno;
    ghost var n: nat := 0;
    NothingYet(text, pre, memory);
    while inptr < |text| || buf.noutlines == 0
      invariant buf.Valid() && Underway(buf.lines, text, pre, inptr) && tetSequence == seqno + |buf.lines|
      invariant fresh(buf.outbuf.bp) || buf.outbuf.bp == null
      invariant fresh(buf.lineoffsets.bp) || buf.lineoffsets.bp == null
      invariant buf.lines == [] || (buf.outbuf.bp != null && buf.lineoffsets.bp != null)
      invariant n == |buf.lines| && GrantedSoFar(memory, n)
      decreases |pre| - |buf.lines|
    {
      UnderwayRoom(buf.lines, text, pre, inptr);
      NextGranted(buf.lines, text, pre, inptr, memory);
      ok, inptr := AddNextLine(text, inptr, env, tetSequence, pre, buf, memory);
      if !ok { return; }
      tetSequence, n := tetSequence + 1, n + 1;
    }
    UnderwayDone(buf.lines, text, pre, inptr);
    AllGranted(buf.lines, text, pre, memory);
    ok := true;
  }

  lemma LineNulFree(lines: seq<string>, text: string, env: Env, seqno: int, n: nat, k: nat)
    requires Assembled(lines, text, Preambles(env, seqno, n)) && k < |lines| && NUL !in text
    ensures NUL !in lines[k]
  {
    assert IsLine(lines[k], text, Preambles(env, seqno, n), k);
    assert Printable(Preamble(env, seqno + k));
  }

  lemma LinesNulFree(lines: seq<string>, text: string, env: Env, seqno: int, n: nat)
    requires Assembled(lines, text, Preambles(env, seqno, n)) && NUL !in text
    ensures forall k :: 0 <= k < |lines| ==> NUL !in lines[k]
  {
    forall k | 0 <= k < |lines| ensures NUL !in lines[k] { LineNulFree(lines, text, env, seqno, n, k); }
  }

  lemma PreamblesAre(env: Env, seqno: int, n: nat)
    ensures forall k :: 0 <= k < n ==> IsPreamble(Preambles(env, seqno, n)[k], env, seqno + k)
  {
  }
}

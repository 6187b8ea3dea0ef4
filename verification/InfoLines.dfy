/** tet_vprintf() and tet_minfoline(): info lines are assembled in a pair of buffers and then sent. */
module InfoLines {
  import opened Numerals
  import opened Options
  import opened Bufchk
  import opened LineBuffer
  import opened Journal
  import opened LineStamp
  import opened MessageForm
  import opened Delivery
  import opened ErrorPath

  // Long texts are written in parts, because the verifier looks only so deep into one literal.
  const NO_LINEPTRS_V: CText := "can't allocate lineptrs " + "in tet_vprintf()"
  const NO_LINEPTRS_M: CText := "can't allocate lineptrs " + "in tet_minfoline()"

  /** The line pointers, as positions in the finished text, if there is memory for them. */
  method LinePointers(lineoffsets: array<int>, granted: bool) returns (lineptrs: array?<int>)
    ensures if granted then lineptrs != null && lineptrs[..] == lineoffsets[..] else lineptrs == null
  {
    lineptrs := Malloc(lineoffsets.Length, granted);
    if lineptrs != null {
      for lnum := 0 to lineoffsets.Length
        invariant lineptrs[..lnum] == lineoffsets[..lnum]
      {
        lineptrs[lnum] := lineoffsets[lnum];
      }
      assert lineptrs[..] == lineptrs[..lineptrs.Length] && lineoffsets[..] == lineoffsets[..lineoffsets.Length];
    }
  }

  /** What the pointers point at. */
  method PointedAt(outbuf: array<char>, lineptrs: array<int>, ghost expected: seq<string>) returns (lines: seq<string>)
    requires lineptrs.Length == |expected|
    requires forall k :: 0 <= k < |expected| ==> lineptrs[k] >= 0 && CString(outbuf[..], lineptrs[k], expected[k])
    ensures lines == expected
  {
    lines := [];
    for k := 0 to lineptrs.Length
      invariant lines == expected[..k]
    {
      var line := ReadString(outbuf, lineptrs[k], expected[k]);
      lines := lines + [line];
    }
  }

  /** tet_error(): the message is in the journal or printed, or the process has exited. */
  method Complain(api: Api, errnum: int, msg: string)
    requires ValidNames(api.cfg.nm) && !api.exited && NUL !in msg
    modifies api
    ensures Grows(old(api.Now()), api.Now())
    ensures api.Now() == Complained(api.cfg, old(api.combinedOk), old(api.inprogress) > 0, old(api.Now()), errnum, msg)
    ensures !api.exited ==> api.combinedOk == old(api.combinedOk) && api.inprogress == old(api.inprogress)
    ensures !api.exited ==> Noticed(api.combinedOk, old(api.Now()), api.Now(),
                                    Notices(api.combinedOk, api.cfg.nm, errnum, msg))
  {
    SaidGrows(api.cfg, api.inprogress > 0, api.Now(), errnum, Some(msg));
    OneMessage(api.cfg.nm, errnum, msg);
    api.TetError(errnum, msg);
  }

  function Complained(cfg: Config, open: bool, quiet: bool, w: World, errnum: int, msg: string): World {
    if open then Said(cfg, quiet, w, errnum, Some(msg)) else Printed(cfg, w, errnum, [Some(msg)])
  }

  /** What a message of the library adds to the journal or, if that is closed, to the standard error output, */
  function Notices(open: bool, nm: Names, errnum: int, msg: string): seq<string> {
    if open then Entries(nm, errnum, Some(msg)) else [StderrLine(nm, errnum, Some(msg))]
  }

  /** and that it is all that was added. */
  predicate Noticed(open: bool, was: World, now: World, notices: seq<string>) {
    && now.journal == was.journal + (if open then notices else [])
    && now.stderr == was.stderr + (if open then [] else notices)
  }

  lemma NoticedMore(open: bool, was: World, mid: World, now: World, notices: seq<string>, more: seq<string>)
    requires Noticed(open, was, mid, notices) && Noticed(open, mid, now, more)
    ensures Noticed(open, was, now, notices + more)
  {
  }

  /**
    The end of both functions: the lines in the buffer are pointed at, if there is memory for that, and sent
    to the journal; else that is reported.
   */
  method Send(api: Api, buf: LineBuffer, pointers: bool, errno: int, noPointers: CText) returns (rc: int)
    requires ValidNames(api.cfg.nm) && !api.exited
    requires buf.Valid() && buf.outbuf.bp != null && buf.lineoffsets.bp != null
    requires forall k :: 0 <= k < |buf.lines| ==> NUL !in buf.lines[k]
    modifies api
    ensures Grows(old(api.Now()), api.Now())
    ensures rc == if pointers && Outcome(api.cfg, old(api.sent), buf.lines).ok then 0 else -1
    ensures api.Now() == if pointers then Tried(api.cfg, old(api.Quiet()), old(api.Now()), buf.lines)
                         else Complained(api.cfg, old(api.combinedOk), old(api.inprogress) > 0, old(api.Now()),
                                         errno, noPointers)
    ensures buf.lines != [] ==> (rc == 0 <==> pointers && SendOk(api.cfg, old(api.sent)))
    ensures rc == 0 ==> api.Now() == World(old(api.journal) + buf.lines, old(api.stderr), old(api.sent) + 1, false)
    ensures rc == 0 ==> api.combinedOk == old(api.combinedOk) && api.inprogress == old(api.inprogress)
  {
    var lineptrs := LinePointers(buf.lineoffsets.bp, pointers);
    if lineptrs == null {
      Complain(api, errno, noPointers);
      return -1;
    }
    forall k | 0 <= k < |buf.lines|
      ensures lineptrs[k] >= 0 && CString(buf.outbuf.bp[..], lineptrs[k], buf.lines[k])
    {
      LineAtOffset(buf.lines, k, |buf.lines|);
      assert lineptrs[k] == lineptrs[..][k] == buf.lineoffsets.Contents()[k];
    }
    var lines := PointedAt(buf.outbuf.bp, lineptrs, buf.lines);
    TriedGrows(api.cfg, api.Quiet(), api.Now(), lines);
    rc := api.Output(lines);
  }

  // ---------------------------------------------------------------- tet_vprintf()

  /**
    tet_vprintf() on an already formatted text, given what happens to its requests for memory.  It succeeds
    exactly if all of these are granted and the lines can be sent.  Then the journal has gained exactly the
    lines of the text, and the answer is their total length, counting one terminator each.
   */
  method Vprintf(api: Api, text: string, env: Env, seqno: int, memory: nat -> Growth, pointers: bool, errno: int)
    returns (rval: int, ghost lines: seq<string>)
    requires ValidNames(api.cfg.nm) && !api.exited
    requires NUL !in text && Short(Preambles(env, seqno, |text| + 1))
    modifies api
    ensures Grows(old(api.Now()), api.Now())
    ensures rval != -1 <==> && HasMemory(text, Preambles(env, seqno, |text| + 1), memory) && pointers
                            && SendOk(api.cfg, old(api.sent))
    ensures !HasMemory(text, Preambles(env, seqno, |text| + 1), memory) ==> api.Now() == old(api.Now())
    ensures HasMemory(text, Preambles(env, seqno, |text| + 1), memory) ==>
              AreLines(lines, text, Preambles(env, seqno, |text| + 1)) && AllStamped(lines, env, seqno)
    ensures HasMemory(text, Preambles(env, seqno, |text| + 1), memory) ==>
              api.Now() == if pointers then Tried(api.cfg, old(api.Quiet()), old(api.Now()), lines)
                           else Complained(api.cfg, old(api.combinedOk), old(api.inprogress) > 0, old(api.Now()),
                                           errno, NO_LINEPTRS_V)
    ensures rval != -1 ==> rval == Bytes(lines, |lines|)
    ensures rval != -1 ==> api.Now() == World(old(api.journal) + lines, old(api.stderr), old(api.sent) + 1, false)
  {
    ghost var pre := Preambles(env, seqno, |text| + 1);
    PreamblesAre(env, seqno, |text| + 1);
    var buf := new LineBuffer();
    lines := [];
    var ok := Assemble(text, env, seqno, pre, buf, memory);
    if !ok { return -1, []; }
    lines := buf.lines;
    LinesNulFree(lines, text, env, seqno, |text| + 1);
    TextStamped(lines, text, env, seqno, |text| + 1);
    var rc := Send(api, buf, pointers, errno, NO_LINEPTRS_V);
    rval := if rc < 0 then -1 else buf.outpos;
  }

  // ---------------------------------------------------------------- tet_minfoline()

  /** How many of the first n messages are not null. */
  function Given(msgs: seq<Option<string>>, n: nat): nat
    requires n <= |msgs|
  {
    if n == 0 then 0 else Given(msgs, n - 1) + if msgs[n - 1].Some? then 1 else 0
  }

  /** The journal lines of the first n messages: null messages have none, and do not use up a sequence number. */
  function LinesOf(msgs: seq<Option<string>>, env: Env, seqno: int, n: nat): (lines: seq<string>)
    requires n <= |msgs|
    ensures |lines| == Given(msgs, n)
  {
    if n == 0 then [] else
      LinesOf(msgs, env, seqno, n - 1) +
      match msgs[n - 1]
      case None => []
      case Some(text) => [Formed(Preamble(env, seqno + Given(msgs, n - 1)), text)]
  }

  /** A formatted line begins with its whole preamble, which ends in a bar. */
  lemma FormedStamped(env: Env, seqno: int, text: string)
    requires |Preamble(env, seqno)| < HEADER_SIZE
    ensures Stamped(Formed(Preamble(env, seqno), text), env, seqno)
  {
    var header := Preamble(env, seqno);
    var s := Formed(header, text);
    PreambleParts(env, seqno);
    assert header[|header| - 1] == '|';
    hide Preamble, Formed, Stamped;
    HeaderKept(header, text);
    assert s == header + s[|header|..];
    PreambleStamped(env, seqno, s[|header|..]);
  }

  lemma {:induction false} MessagesStamped(msgs: seq<Option<string>>, env: Env, seqno: int, n: nat)
    requires n <= |msgs| && HeadersFit(env, seqno, |msgs|)
    ensures AllStamped(LinesOf(msgs, env, seqno, n), env, seqno) && Given(msgs, n) <= n
  {
    if n > 0 {
      MessagesStamped(msgs, env, seqno, n - 1);
      var lines := LinesOf(msgs, env, seqno, n - 1);
      match msgs[n - 1]
      case None => assert lines + [] == lines;
      case Some(text) =>
        NextHeaderFits(msgs, env, seqno, n - 1);
        FormedStamped(env, seqno + Given(msgs, n - 1), text);
        StampedMore(lines, Formed(Preamble(env, seqno + Given(msgs, n - 1)), text), env, seqno);
    }
  }

  /** Every preamble fits the 128-character header buffer. */
  predicate HeadersFit(env: Env, seqno: int, n: nat) {
    forall k {:trigger Preamble(env, k)} :: seqno <= k < seqno + n ==> |Preamble(env, k)| < HEADER_SIZE
  }

  lemma TenToThe19()
    ensures Pow(2, 63) < Pow(10, 19)
  {
    assert Pow(2, 9) == 512 && Pow(10, 3) == 1000;
    PowAdd(2, 9, 9);
    PowAdd(2, 18, 18);
    PowAdd(2, 36, 18);
    PowAdd(2, 54, 9);
    PowAdd(10, 3, 3);
    PowAdd(10, 6, 6);
    PowAdd(10, 12, 6);
    PowAdd(10, 18, 1);
  }

  lemma LongDigits(n: int)
    requires IsLong(n, 64)
    ensures |Decimal(n)| <= 20
  {
    TenToThe19();
    assert Pow(2, 63) == Pow(2, 64 - 1);
    DigitsFit(if n < 0 then -n else n, 19);
  }

  /** With 32-bit ints and 64-bit longs the longest preamble has 112 characters or less. */
  lemma HeaderFits(env: Env, seqno: int)
    requires IsLong(env.activity, 64) && IsLong(env.thistest, 32) && IsLong(env.sysid, 32)
    requires IsLong(env.context, 64) && IsLong(env.block, 64) && IsLong(seqno, 64)
    ensures |Preamble(env, seqno)| <= 112 < HEADER_SIZE
  {
    LongDigits(env.activity);
    LongsFit(env.thistest, 32);
    LongsFit(env.sysid, 32);
    LongDigits(env.context);
    LongDigits(env.block);
    LongDigits(seqno);
    assert Digits(TET_JNL_TC_INFO, 10) == Digits(52, 10) + [DigitChar(0)] && |Digits(52, 10)| == 2;
  }

  /** The warning about a message of tet_minfoline() as one line, if the message's own line is truncated. */
  function Cautions(open: bool, nm: Names, env: Env, seqno: int, text: string): seq<string> {
    var warning := Warning(Preamble(env, seqno));
    if !Truncated(Preamble(env, seqno), text) then []
    else if open then [Formed(Header(nm, 0), warning)]
    else [StderrLine(nm, 0, Some(warning))]
  }

  /** The warnings about the first n messages, and nothing else. */
  function CautionsOf(open: bool, nm: Names, msgs: seq<Option<string>>, env: Env, seqno: int, n: nat): seq<string>
    requires n <= |msgs|
  {
    if n == 0 then [] else
      CautionsOf(open, nm, msgs, env, seqno, n - 1) +
      match msgs[n - 1]
      case None => []
      case Some(text) => Cautions(open, nm, env, seqno + Given(msgs, n - 1), text)
  }

  /** Reported as a message, the warning needs no warning itself: it is that one line. */
  lemma CautionIsLine(open: bool, nm: Names, env: Env, seqno: int, text: string)
    requires ValidNames(nm) && Truncated(Preamble(env, seqno), text)
    ensures Notices(open, nm, 0, Warning(Preamble(env, seqno))) == Cautions(open, nm, env, seqno, text)
  {
    HeaderStarts(nm, 0);
    WarningNotTruncated(Preamble(env, seqno), Header(nm, 0));
  }

  /** The line is truncated, and the warning about it can not be sent. */
  predicate Unsendable(cfg: Config, open: bool, sent: nat, env: Env, seqno: int, text: string) {
    open && Truncated(Preamble(env, seqno), text) && !SendOk(cfg, sent)
  }

  /** How many sends the warnings about the first n messages take: they need none if the journal is closed. */
  function CautionSends(open: bool, msgs: seq<Option<string>>, env: Env, seqno: int, n: nat): nat
    requires n <= |msgs|
  {
    if n == 0 then 0 else
      CautionSends(open, msgs, env, seqno, n - 1)
      + if open && msgs[n - 1].Some? && Truncated(Preamble(env, seqno + Given(msgs, n - 1)), msgs[n - 1].value)
        then 1 else 0
  }

  /** The process exits with a warning exactly if that is sent and its send fails. */
  lemma CautionSent(cfg: Config, open: bool, quiet: bool, w: World, env: Env, seqno: int)
    requires ValidNames(cfg.nm) && !w.exited
    ensures var v := Complained(cfg, open, quiet, w, 0, Warning(Preamble(env, seqno)));
            && (v.exited <==> open && !SendOk(cfg, w.sent))
            && (!v.exited ==> v.sent == w.sent + if open then 1 else 0)
  {
    var warning := Warning(Preamble(env, seqno));
    WarningNotTruncated(Preamble(env, seqno), Header(cfg.nm, 0));
    HeaderStarts(cfg.nm, 0);
    if open {
      var line := JournalLine(cfg.nm, 0, Some(warning));
      assert Entries(cfg.nm, 0, Some(warning)) == [line];
      assert SentEach(cfg, quiet, w, [line], 0) == w;
      DeliveredExits(cfg, quiet, w, line);
    }
  }

  /** tet_msgform() of a message under its preamble: a warning is reported if the line was truncated. */
  method FormMessage(api: Api, text: string, env: Env, seqno: int) returns (line: string)
    requires ValidNames(api.cfg.nm) && !api.exited && NUL !in text && |Preamble(env, seqno)| < HEADER_SIZE
    modifies api
    ensures Grows(old(api.Now()), api.Now())
    ensures line == Formed(Preamble(env, seqno), text) && NUL !in line
    ensures api.exited <==> Unsendable(api.cfg, old(api.combinedOk), old(api.sent), env, seqno, text)
    ensures !api.exited ==>
              api.sent == old(api.sent) + if api.combinedOk && Truncated(Preamble(env, seqno), text) then 1 else 0
    ensures !api.exited ==> api.combinedOk == old(api.combinedOk) && api.inprogress == old(api.inprogress)
    ensures !api.exited ==> Noticed(api.combinedOk, old(api.Now()), api.Now(),
                                    Cautions(api.combinedOk, api.cfg.nm, env, seqno, text))
  {
    var header := Preamble(env, seqno);
    PreambleStarts(env, seqno);
    var linebuf := new char[TET_JNL_LEN];
    var truncated := FormLine(header, text, linebuf);
    line := ReadString(linebuf, 0, Formed(header, text));
    if truncated {
      CautionIsLine(api.combinedOk, api.cfg.nm, env, seqno, text);
      CautionSent(api.cfg, api.combinedOk, api.inprogress > 0, api.Now(), env, seqno);
      hide Complained, Cautions, Notices, Noticed, Formed, Preamble;
      Complain(api, 0, Warning(header));
    }
  }

  /** One message: its line goes to the buffer. */
  method AddMessage(api: Api, buf: LineBuffer, text: string, env: Env, seqno: int, first: Growth, second: Growth)
    returns (ok: bool)
    requires ValidNames(api.cfg.nm) && !api.exited && buf.Valid() && NUL !in text
    requires |Preamble(env, seqno)| < HEADER_SIZE
    modifies api, buf, buf.outbuf, buf.outbuf.bp, buf.lineoffsets, buf.lineoffsets.bp
    ensures Grows(old(api.Now()), api.Now())
    ensures ok <==> && !Unsendable(api.cfg, old(api.combinedOk), old(api.sent), env, seqno, text)
                    && first.granted && second.granted
    ensures ok ==>
              api.sent == old(api.sent) + if api.combinedOk && Truncated(Preamble(env, seqno), text) then 1 else 0
    ensures ok ==> !api.exited && buf.Valid() && fresh(buf.outbuf.bp) && fresh(buf.lineoffsets.bp)
    ensures ok ==> buf.lines == old(buf.lines) + [Formed(Preamble(env, seqno), text)]
    ensures ok ==> NUL !in Formed(Preamble(env, seqno), text)
    ensures ok ==> api.combinedOk == old(api.combinedOk) && api.inprogress == old(api.inprogress)
    ensures ok ==> Noticed(api.combinedOk, old(api.Now()), api.Now(),
                           Cautions(api.combinedOk, api.cfg.nm, env, seqno, text))
  {
    var line := FormMessage(api, text, env, seqno);
    if api.exited { return false; }
    hide Unsendable, Truncated, Formed, Preamble, Cautions, Noticed;
    ok := buf.AddLine(line, first, second);
  }

  lemma PreambleStarts(env: Env, seqno: int)
    ensures Preamble(env, seqno) != "" && !IsSpace(Preamble(env, seqno)[0]) && NUL !in Preamble(env, seqno)
  {
    DigitsAreDigits(TET_JNL_TC_INFO, 10);
    assert Preamble(env, seqno)[0] == Decimal(TET_JNL_TC_INFO)[0];
    assert Printable(Preamble(env, seqno));
  }

  predicate TextsNulFree(msgs: seq<Option<string>>) {
    forall n :: 0 <= n < |msgs| && msgs[n].Some? ==> NUL !in msgs[n].value
  }

  /** `all` are the lines of all messages. */
  ghost predicate AllLines(all: seq<string>, msgs: seq<Option<string>>, env: Env, seqno: int) {
    all == LinesOf(msgs, env, seqno, |msgs|)
  }

  /** The lines of the first n messages are in the buffer. */
  predicate Gathered(lines: seq<string>, all: seq<string>, msgs: seq<Option<string>>, n: nat) {
    && n <= |msgs| && Given(msgs, n) <= |all| && lines == all[..Given(msgs, n)]
    && forall k :: 0 <= k < |lines| ==> NUL !in lines[k]
  }

  lemma {:induction false} LinesOfPrefix(msgs: seq<Option<string>>, env: Env, seqno: int, m: nat, n: nat)
    requires m <= n <= |msgs|
    ensures LinesOf(msgs, env, seqno, m) <= LinesOf(msgs, env, seqno, n)
  {
    hide Formed, Preamble;
    if m < n { LinesOfPrefix(msgs, env, seqno, m, n - 1); }
  }

  lemma NextLine(all: seq<string>, msgs: seq<Option<string>>, env: Env, seqno: int, n: nat)
    requires AllLines(all, msgs, env, seqno) && n < |msgs| && msgs[n].Some?
    ensures Given(msgs, n) < |all|
    ensures all[Given(msgs, n)] == Formed(Preamble(env, seqno + Given(msgs, n)), msgs[n].value)
  {
    LinesOfPrefix(msgs, env, seqno, n + 1, |msgs|);
  }

  lemma GatheredMore(lines: seq<string>, line: string, all: seq<string>, msgs: seq<Option<string>>, n: nat)
    requires Gathered(lines, all, msgs, n) && n < |msgs| && msgs[n].Some? && Given(msgs, n) < |all|
    requires line == all[Given(msgs, n)] && NUL !in line
    ensures Gathered(lines + [line], all, msgs, n + 1)
  {
    assert Given(msgs, n + 1) == Given(msgs, n) + 1;
  }

  lemma NextHeaderFits(msgs: seq<Option<string>>, env: Env, seqno: int, n: nat)
    requires HeadersFit(env, seqno, |msgs|) && n < |msgs| && Given(msgs, n) <= n
    ensures |Preamble(env, seqno + Given(msgs, n))| < HEADER_SIZE
  {
    var k := seqno + Given(msgs, n);
    assert |Preamble(env, k)| < HEADER_SIZE;
  }

  /** The first n messages get what they need: memory for their lines, and sends for the warnings about them. */
  ghost predicate Provided(cfg: Config, open: bool, sent: nat, msgs: seq<Option<string>>, env: Env, seqno: int,
                           memory: nat -> Growth, n: nat)
    requires n <= |msgs|
  {
    && GrantedSoFar(memory, Given(msgs, n))
    && forall i :: sent <= i < sent + CautionSends(open, msgs, env, seqno, n) ==> SendOk(cfg, i)
  }

  lemma ProvidedOver(cfg: Config, open: bool, sent: nat, msgs: seq<Option<string>>, env: Env, seqno: int,
                     memory: nat -> Growth, n: nat)
    requires n < |msgs| && msgs[n] == None && Provided(cfg, open, sent, msgs, env, seqno, memory, n)
    ensures Provided(cfg, open, sent, msgs, env, seqno, memory, n + 1)
    ensures CautionSends(open, msgs, env, seqno, n + 1) == CautionSends(open, msgs, env, seqno, n)
  {
  }

  lemma ProvidedNext(cfg: Config, open: bool, sent: nat, msgs: seq<Option<string>>, env: Env, seqno: int,
                     memory: nat -> Growth, n: nat)
    requires n < |msgs| && msgs[n].Some? && Provided(cfg, open, sent, msgs, env, seqno, memory, n)
    ensures var k, sends := Given(msgs, n), CautionSends(open, msgs, env, seqno, n);
            var truncated := Truncated(Preamble(env, seqno + k), msgs[n].value);
            && CautionSends(open, msgs, env, seqno, n + 1) == sends + (if open && truncated then 1 else 0)
            && (Provided(cfg, open, sent, msgs, env, seqno, memory, n + 1)
                <==> Granted(memory, k) && !Unsendable(cfg, open, sent + sends, env, seqno + k, msgs[n].value))
  {
    hide Truncated, Preamble, Granted, SendOk;
  }

  /** Who does not get it at once never does. */
  lemma {:induction false} ProvidedBefore(cfg: Config, open: bool, sent: nat, msgs: seq<Option<string>>, env: Env,
                                          seqno: int, memory: nat -> Growth, m: nat, n: nat)
    requires m <= n <= |msgs| && Provided(cfg, open, sent, msgs, env, seqno, memory, n)
    ensures Provided(cfg, open, sent, msgs, env, seqno, memory, m)
  {
    hide Truncated, Preamble, Granted, SendOk;
    if m < n { ProvidedBefore(cfg, open, sent, msgs, env, seqno, memory, m, n - 1); }
  }

  lemma NoticedNext(open: bool, nm: Names, was: World, mid: World, now: World,
                    msgs: seq<Option<string>>, env: Env, seqno: int, n: nat)
    requires n < |msgs| && msgs[n].Some? && Noticed(open, was, mid, CautionsOf(open, nm, msgs, env, seqno, n))
    requires Noticed(open, mid, now, Cautions(open, nm, env, seqno + Given(msgs, n), msgs[n].value))
    ensures Noticed(open, was, now, CautionsOf(open, nm, msgs, env, seqno, n + 1))
  {
    NoticedMore(open, was, mid, now, CautionsOf(open, nm, msgs, env, seqno, n),
                Cautions(open, nm, env, seqno + Given(msgs, n), msgs[n].value));
  }

  lemma TextIsNulFree(msgs: seq<Option<string>>, n: nat)
    requires TextsNulFree(msgs) && n < |msgs| && msgs[n].Some?
    ensures NUL !in msgs[n].value
  {
  }

  /** How far the assembly loop has come: the lines of the first n messages, and what was said about them. */
  ghost predicate Gathering(cfg: Config, open: bool, was: World, now: World, lines: seq<string>, all: seq<string>,
                            msgs: seq<Option<string>>, env: Env, seqno: int, memory: nat -> Growth, n: nat)
    requires n <= |msgs|
  {
    && !now.exited && Grows(was, now) && Gathered(lines, all, msgs, n)
    && Noticed(open, was, now, CautionsOf(open, cfg.nm, msgs, env, seqno, n))
    && Provided(cfg, open, was.sent, msgs, env, seqno, memory, n)
    && now.sent == was.sent + CautionSends(open, msgs, env, seqno, n)
  }

  lemma GatheringBegins(cfg: Config, open: bool, w: World, all: seq<string>,
                        msgs: seq<Option<string>>, env: Env, seqno: int, memory: nat -> Growth)
    requires !w.exited
    ensures Gathering(cfg, open, w, w, [], all, msgs, env, seqno, memory, 0)
  {
  }

  lemma GatheringOver(cfg: Config, open: bool, was: World, now: World, lines: seq<string>, all: seq<string>,
                      msgs: seq<Option<string>>, env: Env, seqno: int, memory: nat -> Growth, n: nat)
    requires n < |msgs| && msgs[n] == None
    requires Gathering(cfg, open, was, now, lines, all, msgs, env, seqno, memory, n)
    ensures Gathering(cfg, open, was, now, lines, all, msgs, env, seqno, memory, n + 1)
    ensures Given(msgs, n + 1) == Given(msgs, n) && Provided(cfg, open, was.sent, msgs, env, seqno, memory, n + 1)
  {
    ProvidedOver(cfg, open, was.sent, msgs, env, seqno, memory, n);
    assert CautionsOf(open, cfg.nm, msgs, env, seqno, n + 1) == CautionsOf(open, cfg.nm, msgs, env, seqno, n);
    hide Provided, CautionSends, Noticed, CautionsOf;
  }

  /** Whether one more message gets what it needs. */
  lemma GatheringNext(cfg: Config, open: bool, was: World, now: World, lines: seq<string>, all: seq<string>,
                      msgs: seq<Option<string>>, env: Env, seqno: int, memory: nat -> Growth, n: nat)
    requires n < |msgs| && msgs[n].Some?
    requires Gathering(cfg, open, was, now, lines, all, msgs, env, seqno, memory, n)
    ensures |lines| == Given(msgs, n) && Given(msgs, n + 1) == Given(msgs, n) + 1
    ensures Provided(cfg, open, was.sent, msgs, env, seqno, memory, n + 1)
            <==> Granted(memory, |lines|) && !Unsendable(cfg, open, now.sent, env, seqno + |lines|, msgs[n].value)
  {
    ProvidedNext(cfg, open, was.sent, msgs, env, seqno, memory, n);
    hide Provided, CautionSends, Noticed, CautionsOf, Unsendable, Granted;
  }

  lemma GatheringMore(cfg: Config, open: bool, was: World, mid: World, now: World, lines: seq<string>, line: string,
                      all: seq<string>, msgs: seq<Option<string>>, env: Env, seqno: int, memory: nat -> Growth, n: nat)
    requires n < |msgs| && msgs[n].Some? && AllLines(all, msgs, env, seqno)
    requires Gathering(cfg, open, was, mid, lines, all, msgs, env, seqno, memory, n)
    requires Provided(cfg, open, was.sent, msgs, env, seqno, memory, n + 1)
    requires !now.exited && Grows(mid, now) && |lines| == Given(msgs, n)
    requires line == Formed(Preamble(env, seqno + |lines|), msgs[n].value) && NUL !in line
    requires Noticed(open, mid, now, Cautions(open, cfg.nm, env, seqno + |lines|, msgs[n].value))
    requires now.sent
             == mid.sent + if open && Truncated(Preamble(env, seqno + |lines|), msgs[n].value) then 1 else 0
    ensures Gathering(cfg, open, was, now, lines + [line], all, msgs, env, seqno, memory, n + 1)
  {
    hide Formed, Preamble, Truncated, Cautions;
    GrowsOn(was, mid, now);
    NextLine(all, msgs, env, seqno, n);
    GatheredMore(lines, line, all, msgs, n);
    NoticedNext(open, cfg.nm, was, mid, now, msgs, env, seqno, n);
    hide Provided, Noticed, CautionsOf, Gathered, Grows, AllLines, LinesOf;
  }

  lemma GatheringGrows(cfg: Config, open: bool, was: World, mid: World, now: World, lines: seq<string>,
                       all: seq<string>, msgs: seq<Option<string>>, env: Env, seqno: int, memory: nat -> Growth,
                       n: nat)
    requires n <= |msgs| && Gathering(cfg, open, was, mid, lines, all, msgs, env, seqno, memory, n) && Grows(mid, now)
    ensures Grows(was, now)
  {
    GrowsOn(was, mid, now);
  }

  /** One round of the assembly loop.  A null message is passed over. */
  method GatherNext(api: Api, buf: LineBuffer, msgs: seq<Option<string>>, env: Env, ghost seqno: int,
                    ghost all: seq<string>, tetSequence: int, n: nat, ghost was: World, memory: nat -> Growth)
    returns (ok: bool, next: int)
    requires ValidNames(api.cfg.nm) && !api.exited && HeadersFit(env, seqno, |msgs|) && TextsNulFree(msgs)
    requires buf.Valid() && n < |msgs| && AllLines(all, msgs, env, seqno)
    requires Gathering(api.cfg, api.combinedOk, was, api.Now(), buf.lines, all, msgs, env, seqno, memory, n)
    requires tetSequence == seqno + Given(msgs, n) <= seqno + n
    requires buf.lines != [] ==> buf.outbuf.bp != null && buf.lineoffsets.bp != null
    modifies api, buf, buf.outbuf, buf.outbuf.bp, buf.lineoffsets, buf.lineoffsets.bp
    ensures Grows(was, api.Now())
    ensures ok <==> Provided(api.cfg, old(api.combinedOk), was.sent, msgs, env, seqno, memory, n + 1)
    ensures ok ==> api.combinedOk == old(api.combinedOk) && api.inprogress == old(api.inprogress)
    ensures ok ==> !api.exited && buf.Valid()
    ensures ok ==> Gathering(api.cfg, api.combinedOk, was, api.Now(), buf.lines, all, msgs, env, seqno, memory, n + 1)
    ensures ok ==> next == seqno + Given(msgs, n + 1) <= seqno + n + 1
    ensures ok ==> buf.outbuf.bp == old(buf.outbuf.bp) || fresh(buf.outbuf.bp)
    ensures ok ==> buf.lineoffsets.bp == old(buf.lineoffsets.bp) || fresh(buf.lineoffsets.bp)
    ensures ok && buf.lines != [] ==> buf.outbuf.bp != null && buf.lineoffsets.bp != null
  {
    hide Gathering, Noticed, Cautions, AllLines, Grows, HeadersFit, TextsNulFree, Provided, Truncated, Unsendable,
         Granted, Given, Formed, Preamble;
    ghost var lines, mid, open := buf.lines, api.Now(), api.combinedOk;
    GatheringGrows(api.cfg, open, was, mid, mid, lines, all, msgs, env, seqno, memory, n);
    if msgs[n] == None {
      GatheringOver(api.cfg, open, was, mid, lines, all, msgs, env, seqno, memory, n);
      return true, tetSequence;
    }
    GatheringNext(api.cfg, open, was, mid, lines, all, msgs, env, seqno, memory, n);
    NextHeaderFits(msgs, env, seqno, n);
    TextIsNulFree(msgs, n);
    var first, second := Requests(memory, buf.noutlines);
    ok := AddMessage(api, buf, msgs[n].value, env, tetSequence, first, second);
    next := tetSequence + 1;
    GatheringGrows(api.cfg, open, was, mid, api.Now(), lines, all, msgs, env, seqno, memory, n);
    if ok {
      GatheringMore(api.cfg, open, was, mid, api.Now(), lines, buf.lines[|lines|], all, msgs, env, seqno, memory, n);
    }
  }

  lemma NotProvided(cfg: Config, open: bool, sent: nat, msgs: seq<Option<string>>, env: Env, seqno: int,
                    memory: nat -> Growth, n: nat)
    requires n <= |msgs| && !Provided(cfg, open, sent, msgs, env, seqno, memory, n)
    ensures !Provided(cfg, open, sent, msgs, env, seqno, memory, |msgs|)
  {
    hide Provided;
    if Provided(cfg, open, sent, msgs, env, seqno, memory, |msgs|) {
      ProvidedBefore(cfg, open, sent, msgs, env, seqno, memory, n, |msgs|);
    }
  }

  /** The assembly loop. */
  method Gather(api: Api, buf: LineBuffer, msgs: seq<Option<string>>, env: Env, seqno: int, ghost all: seq<string>,
                memory: nat -> Growth)
    returns (ok: bool)
    requires ValidNames(api.cfg.nm) && !api.exited && HeadersFit(env, seqno, |msgs|) && TextsNulFree(msgs)
    requires buf.Valid() && buf.lines == [] && buf.outbuf.bp == null && buf.lineoffsets.bp == null
    requires AllLines(all, msgs, env, seqno)
    modifies api, buf, buf.outbuf, buf.lineoffsets
    ensures Grows(old(api.Now()), api.Now())
    ensures ok <==> Provided(api.cfg, old(api.combinedOk), old(api.sent), msgs, env, seqno, memory, |msgs|)
    ensures ok ==> api.combinedOk == old(api.combinedOk) && api.inprogress == old(api.inprogress)
    ensures ok ==> !api.exited && buf.Valid()
    ensures ok ==> Gathering(api.cfg, api.combinedOk, old(api.Now()), api.Now(), buf.lines, all,
                             msgs, env, seqno, memory, |msgs|)
    ensures ok && buf.lines != [] ==> buf.outbuf.bp != null && buf.lineoffsets.bp != null
  {
    hide Gathering, AllLines, Grows, HeadersFit, TextsNulFree, Provided;
    var tetSequence := seqno;
    ghost var was := api.Now();
    GatheringBegins(api.cfg, api.combinedOk, was, all, msgs, env, seqno, memory);
    for lnum := 0 to |msgs|
      invariant buf.Valid() && !api.exited
      invariant api.combinedOk == old(api.combinedOk) && api.inprogress == old(api.inprogress)
      invariant Gathering(api.cfg, api.combinedOk, was, api.Now(), buf.lines, all, msgs, env, seqno, memory, lnum)
      invariant tetSequence == seqno + Given(msgs, lnum) <= seqno + lnum
      invariant buf.outbuf.bp == null || fresh(buf.outbuf.bp)
      invariant buf.lineoffsets.bp == null || fresh(buf.lineoffsets.bp)
      invariant buf.lines != [] ==> buf.outbuf.bp != null && buf.lineoffsets.bp != null
    {
      ok, tetSequence := GatherNext(api, buf, msgs, env, seqno, all, tetSequence, lnum, was, memory);
      if !ok {
        NotProvided(api.cfg, old(api.combinedOk), was.sent, msgs, env, seqno, memory, lnum + 1);
        return;
      }
    }
    GatheringEnds(api.cfg, api.combinedOk, was, api.Now(), buf.lines, all, msgs, env, seqno, memory);
    ok := true;
  }

  lemma GatheringEnds(cfg: Config, open: bool, was: World, now: World, lines: seq<string>, all: seq<string>,
                      msgs: seq<Option<string>>, env: Env, seqno: int, memory: nat -> Growth)
    requires Gathering(cfg, open, was, now, lines, all, msgs, env, seqno, memory, |msgs|)
    ensures Grows(was, now) && Provided(cfg, open, was.sent, msgs, env, seqno, memory, |msgs|)
  {
    hide Grows, Provided;
  }

  /** The lines follow the warnings, which are in the journal too or, if that is closed, printed. */
  predicate Informed(open: bool, was: World, now: World, notices: seq<string>, lines: seq<string>) {
    && now.journal == was.journal + (if open then notices else []) + lines
    && now.stderr == was.stderr + (if open then [] else notices)
  }

  /** The rest of tet_minfoline() once all lines are in the buffer. */
  method SendGathered(api: Api, buf: LineBuffer, pointers: bool, errno: int, ghost was: World, ghost all: seq<string>,
                      ghost msgs: seq<Option<string>>, ghost env: Env, ghost seqno: int, ghost memory: nat -> Growth)
    returns (rval: int)
    requires ValidNames(api.cfg.nm) && !api.exited && buf.Valid() && AllLines(all, msgs, env, seqno)
    requires buf.lines != [] ==> buf.outbuf.bp != null && buf.lineoffsets.bp != null
    requires Gathering(api.cfg, api.combinedOk, was, api.Now(), buf.lines, all, msgs, env, seqno, memory, |msgs|)
    modifies api
    ensures Grows(was, api.Now()) && (rval == 0 || rval == -1)
    ensures rval == 0 <==>
              || Given(msgs, |msgs|) == 0
              || (pointers
                  && SendOk(api.cfg, was.sent + CautionSends(old(api.combinedOk), msgs, env, seqno, |msgs|)))
    ensures rval == 0 ==> !api.exited && api.combinedOk == old(api.combinedOk)
    ensures rval == 0 ==> Informed(api.combinedOk, was, api.Now(),
                                   CautionsOf(api.combinedOk, api.cfg.nm, msgs, env, seqno, |msgs|), all)
    ensures Given(msgs, |msgs|) == 0 ==> api.journal == was.journal && api.stderr == was.stderr
  {
    hide CautionsOf, Grows, Noticed, Informed, Provided, CautionSends, Gathering, Tried, Outcome, Complained, SendOk,
         Given, LinesOf;
    ghost var mid, notices := api.Now(), CautionsOf(api.combinedOk, api.cfg.nm, msgs, env, seqno, |msgs|);
    AllGathered(api.cfg, api.combinedOk, was, mid, buf.lines, all, msgs, env, seqno, memory);
    if buf.noutlines == 0 { return 0; }
    rval := Send(api, buf, pointers, errno, NO_LINEPTRS_M);
    GrowsOn(was, mid, api.Now());
    if rval == 0 { SentInforms(api.combinedOk, was, mid, api.Now(), notices, all); }
  }

  /**
    tet_minfoline(): on success the journal has gained the warnings about truncated lines and then, all
    together, the lines of the messages that are not null.  If the journal is closed the warnings are
    printed instead.  It succeeds exactly if there is nothing to write, or all requests for memory are granted
    and the warnings and the lines can be sent.
   */
  method Minfoline(api: Api, msgs: seq<Option<string>>, env: Env, seqno: int,
                   memory: nat -> Growth, pointers: bool, errno: int)
    returns (rval: int)
    requires ValidNames(api.cfg.nm) && !api.exited && HeadersFit(env, seqno, |msgs|) && TextsNulFree(msgs)
    modifies api
    ensures Grows(old(api.Now()), api.Now()) && (rval == 0 || rval == -1)
    ensures rval == 0 <==>
              || Given(msgs, |msgs|) == 0
              || (Provided(api.cfg, old(api.combinedOk), old(api.sent), msgs, env, seqno, memory, |msgs|) && pointers
                  && SendOk(api.cfg, old(api.sent) + CautionSends(old(api.combinedOk), msgs, env, seqno, |msgs|)))
    ensures rval == 0 ==> !api.exited && api.combinedOk == old(api.combinedOk)
    ensures rval == 0 ==> Informed(api.combinedOk, old(api.Now()), api.Now(),
                                   CautionsOf(api.combinedOk, api.cfg.nm, msgs, env, seqno, |msgs|),
                                   LinesOf(msgs, env, seqno, |msgs|))
    ensures AllStamped(LinesOf(msgs, env, seqno, |msgs|), env, seqno)
    ensures Given(msgs, |msgs|) == 0 ==> rval == 0 && api.journal == old(api.journal) && api.stderr == old(api.stderr)
  {
    hide CautionsOf, Grows, Informed, HeadersFit, TextsNulFree, AllStamped, Provided, CautionSends, Gathering,
         SendOk, Given, LinesOf, ValidNames;
    MessagesStamped(msgs, env, seqno, |msgs|);
    var buf := new LineBuffer();
    ghost var all := LinesOf(msgs, env, seqno, |msgs|);
    NeedsNothing(api.cfg, api.combinedOk, api.sent, msgs, env, seqno, memory, |msgs|);
    var ok := Gather(api, buf, msgs, env, seqno, all, memory);
    if !ok { return -1; }
    rval := SendGathered(api, buf, pointers, errno, old(api.Now()), all, msgs, env, seqno, memory);
  }

  /** What the loop leaves to be sent. */
  lemma AllGathered(cfg: Config, open: bool, was: World, now: World, lines: seq<string>, all: seq<string>,
                    msgs: seq<Option<string>>, env: Env, seqno: int, memory: nat -> Growth)
    requires Gathering(cfg, open, was, now, lines, all, msgs, env, seqno, memory, |msgs|)
    requires AllLines(all, msgs, env, seqno)
    ensures lines == all && |lines| == Given(msgs, |msgs|) && Grows(was, now)
    ensures forall k :: 0 <= k < |lines| ==> NUL !in lines[k]
    ensures Noticed(open, was, now, CautionsOf(open, cfg.nm, msgs, env, seqno, |msgs|))
    ensures now.sent == was.sent + CautionSends(open, msgs, env, seqno, |msgs|)
    ensures lines == [] ==> now.journal == was.journal && now.stderr == was.stderr
    ensures lines == [] ==> Informed(open, was, now, CautionsOf(open, cfg.nm, msgs, env, seqno, |msgs|), all)
  {
    assert all[..|all|] == all;
    hide Provided, CautionSends, Grows;
    NothingGiven(open, cfg.nm, msgs, env, seqno, was, now);
  }

  lemma {:induction false} NeedsNothing(cfg: Config, open: bool, sent: nat, msgs: seq<Option<string>>, env: Env,
                                        seqno: int, memory: nat -> Growth, n: nat)
    requires n <= |msgs|
    ensures Given(msgs, n) == 0 ==>
              CautionSends(open, msgs, env, seqno, n) == 0 && Provided(cfg, open, sent, msgs, env, seqno, memory, n)
  {
    if n > 0 { NeedsNothing(cfg, open, sent, msgs, env, seqno, memory, n - 1); }
  }

  lemma SentInforms(open: bool, was: World, mid: World, now: World, notices: seq<string>, lines: seq<string>)
    requires Noticed(open, was, mid, notices) && now.journal == mid.journal + lines && now.stderr == mid.stderr
    ensures Informed(open, was, now, notices, lines)
  {
  }

  /** Without a message there is nothing to say. */
  lemma NothingGiven(open: bool, nm: Names, msgs: seq<Option<string>>, env: Env, seqno: int, was: World, now: World)
    requires Noticed(open, was, now, CautionsOf(open, nm, msgs, env, seqno, |msgs|))
    ensures var notices := CautionsOf(open, nm, msgs, env, seqno, |msgs|);
            Given(msgs, |msgs|) == 0 ==>
              && LinesOf(msgs, env, seqno, |msgs|) == []
              && now.journal == was.journal && now.stderr == was.stderr
              && Informed(open, was, now, notices, [])
  {
    if Given(msgs, |msgs|) == 0 { NoneGiven(open, nm, msgs, env, seqno, |msgs|); }
  }

  lemma {:induction false} NoneGiven(open: bool, nm: Names, msgs: seq<Option<string>>, env: Env, seqno: int, n: nat)
    requires n <= |msgs| && Given(msgs, n) == 0
    ensures CautionsOf(open, nm, msgs, env, seqno, n) == [] && LinesOf(msgs, env, seqno, n) == []
  {
    if n > 0 { NoneGiven(open, nm, msgs, env, seqno, n - 1); }
  }

  lemma {:induction false} GivenGrows(msgs: seq<Option<string>>, m: nat, n: nat)
    requires m <= n <= |msgs|
    ensures Given(msgs, m) <= Given(msgs, n)
  {
    if m < n { GivenGrows(msgs, m, n - 1); }
  }
}

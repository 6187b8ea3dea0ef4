/**
  The text of one reported message: tet_msgform(), which makes a journal line of it, and the lines
  that a message has in the journal or on the standard error output.
 */
module MessageForm {
  import opened Options
  import opened Journal
  import opened LineBuffer

  // ---------------------------------------------------------------- one line

  const LAST := TET_JNL_LEN - 1

  /** Newlines become tabs. */
  function Tabbed(c: char): char {
    if c == '\n' then '\t' else c
  }

  /** Character i of the untruncated line. */
  function FormChar(header: string, data: string, i: nat): char
    requires i < |header| + |data|
  {
    if i < |header| then header[i] else Tabbed(data[i - |header|])
  }

  function FormLength(header: string, data: string): nat {
    if |header| + |data| < LAST then |header| + |data| else LAST
  }

  /** The last non-blank among the first n characters, plus one. */
  function Trimmed(header: string, data: string, n: nat): (r: nat)
    requires n <= |header| + |data|
    ensures r <= n
  {
    if n == 0 || !IsSpace(FormChar(header, data, n - 1)) then n else Trimmed(header, data, n - 1)
  }

  /** The journal line: header and data, cut to 511 characters, without white space at the end. */
  function Formed(header: string, data: string): (s: string)
    ensures |s| < TET_JNL_LEN
  {
    seq(Trimmed(header, data, FormLength(header, data)),
        i requires 0 <= i < |header| + |data| => FormChar(header, data, i))
  }

  lemma {:induction false} TrimmedIs(header: string, data: string, n: nat)
    requires n <= |header| + |data|
    ensures var r := Trimmed(header, data, n);
            && (r > 0 ==> !IsSpace(FormChar(header, data, r - 1)))
            && forall i :: r <= i < n ==> IsSpace(FormChar(header, data, i))
  {
    if n > 0 && IsSpace(FormChar(header, data, n - 1)) { TrimmedIs(header, data, n - 1); }
  }

  /** Only white space at the end of the first 511 characters is dropped, and all of it. */
  lemma FormedIs(header: string, data: string)
    ensures var s, n := Formed(header, data), FormLength(header, data);
            && |s| <= n && (s != "" ==> !IsSpace(s[|s| - 1]))
            && (forall i :: 0 <= i < |s| ==> s[i] == FormChar(header, data, i))
            && (forall i :: |s| <= i < n ==> IsSpace(FormChar(header, data, i)))
  {
    TrimmedIs(header, data, FormLength(header, data));
  }

  /** In other words: of header and data, with the data's newlines as tabs, the first 511 characters, trimmed. */
  lemma FormedFrom(header: string, data: string)
    ensures var s, all := Formed(header, data), header + data;
            var n := if |all| < 511 then |all| else 511;
            && |s| <= n && (s != "" ==> !IsSpace(s[|s| - 1])) && (forall i :: |s| <= i < n ==> IsSpace(all[i]))
            && forall i :: 0 <= i < |s| ==> s[i] == if i >= |header| && all[i] == '\n' then '\t' else all[i]
  {
    FormedIs(header, data);
    var all := header + data;
    forall i | 0 <= i < |all| ensures IsSpace(FormChar(header, data, i)) <==> IsSpace(all[i]) { }
  }

  lemma {:induction false} TrimmedAtLeast(header: string, data: string, n: nat, k: nat)
    requires 0 < k <= n <= |header| + |data| && !IsSpace(FormChar(header, data, k - 1))
    ensures Trimmed(header, data, n) >= k
  {
    if k < n { TrimmedAtLeast(header, data, n - 1, k); }
  }

  /** A header that fits and does not end in white space stays whole. */
  lemma HeaderKept(header: string, data: string)
    requires 0 < |header| <= LAST && !IsSpace(header[|header| - 1])
    ensures header <= Formed(header, data)
  {
    TrimmedAtLeast(header, data, FormLength(header, data), |header|);
    FormedIs(header, data);
  }

  predicate Truncated(header: string, data: string) {
    |header| + |data| > LAST
  }

  /** What is put in the buffer first, before white space at the end is removed; p1 is how much data is used. */
  method FillLine(header: string, data: string, outbuf: array<char>) returns (p1: nat, p2: nat)
    requires outbuf.Length == TET_JNL_LEN && |header| <= LAST
    modifies outbuf
    ensures p1 <= |data| && p2 == |header| + p1 == FormLength(header, data)
    ensures forall i :: 0 <= i < p2 ==> outbuf[i] == FormChar(header, data, i)
  {
    p2 := 0;
    while p2 < |header| && p2 < LAST
      invariant p2 <= |header| && p2 <= LAST
      invariant forall i :: 0 <= i < p2 ==> outbuf[i] == FormChar(header, data, i)
    {
      outbuf[p2] := header[p2];
      p2 := p2 + 1;
    }
    p1 := 0;
    while p1 < |data| && p2 < LAST
      invariant p1 <= |data| && p2 == |header| + p1 <= LAST
      invariant forall i :: 0 <= i < p2 ==> outbuf[i] == FormChar(header, data, i)
    {
      outbuf[p2] := if data[p1] == '\n' then '\t' else data[p1];
      p1, p2 := p1 + 1, p2 + 1;
    }
  }

  /**
    tet_msgform(), but for its warning.  The backward loop stays in the buffer because the header
    starts with a character that is not white space.
   */
  method FormLine(header: string, data: string, outbuf: array<char>) returns (truncated: bool)
    requires outbuf.Length == TET_JNL_LEN && NUL !in header && NUL !in data
    requires |header| <= LAST && header != "" && !IsSpace(header[0])
    modifies outbuf
    ensures truncated <==> Truncated(header, data)
    ensures CString(outbuf[..], 0, Formed(header, data))
  {
    var p1, end := FillLine(header, data, outbuf);
    var p2: int := end;
    ghost var n := FormLength(header, data);
    outbuf[p2] := NUL;
    p2 := p2 - 1;
    assert outbuf[0] == FormChar(header, data, 0) == header[0];
    while IsSpace(outbuf[p2])
      invariant 0 <= p2 < n && outbuf[p2 + 1] == NUL
      invariant Trimmed(header, data, n) == Trimmed(header, data, p2 + 1)
      invariant forall i :: 0 <= i <= p2 ==> outbuf[i] == FormChar(header, data, i)
      decreases p2
    {
      assert p2 != 0;
      outbuf[p2] := NUL;
      p2 := p2 - 1;
    }
    truncated := p1 < |data|;
    assert outbuf[..][0..p2 + 1] == Formed(header, data);
  }

  // ---------------------------------------------------------------- reporting

  /** What a C string can hold. */
  type CText = s: string | NUL !in s witness ""

  const HEADER_SIZE := 128
  const ERRMSG_SIZE := 128
  // Long texts are written in parts, because the verifier looks only so deep into one literal.
  const WARNING: CText := "warning: results file " + "line truncated - prefix: "
  const UNWRITTEN: CText := "unable to write the following " + "message to the tet_xres file"
  const UNSENT: CText := "unable to send the following " + "message to XRESD"
  const WRITE_ERROR: CText := "error writing to results file"
  const NO_POINTERS: CText := "can't allocate memory " + "for error message pointers"
  const NO_STRING: CText := "can't get memory for string:"

  /** The warning about a truncated line: as much of its header as the 128-character buffer holds. */
  function Warning(header: string): (s: string)
    ensures |s| < ERRMSG_SIZE && (NUL !in header ==> NUL !in s)
  {
    var room := ERRMSG_SIZE - 1 - (|WARNING| + 4);
    WARNING + if |header| <= room then header else header[..room]
  }

  /** The warning names the truncated line by the first 76 characters of its header. */
  lemma WarningNames(header: string)
    ensures var w, n := Warning(header), |WARNING|;
            WARNING <= w && w[n..] == if |header| <= 76 then header else header[..76]
  {
    assert |WARNING| == 47;
  }

  /** A warning that is reported under any header can not be truncated again. */
  lemma WarningNotTruncated(header: string, header': string)
    requires |header'| < HEADER_SIZE
    ensures !Truncated(header', Warning(header))
  {
  }

  /** The first of a process's last words: the stand-alone version writes a file, the other asks a server. */
  function Unsent(lite: bool): CText {
    if lite then UNWRITTEN else UNSENT
  }

  /** The fixed parts of messages: the process name, the journal line prefix, the text of an error number. */
  datatype Names = Names(pname: string, prefix: string, errtext: int -> string)

  function Header(nm: Names, errnum: int): string {
    nm.prefix + nm.errtext(errnum) + ": "
  }

  /** Headers fit their buffer, begin with a digit and, like all C strings, hold no null character. */
  ghost predicate ValidNames(nm: Names) {
    nm.prefix != "" && !IsSpace(nm.prefix[0])
    && forall e :: |Header(nm, e)| < HEADER_SIZE && NUL !in Header(nm, e)
  }

  function MessageText(msg: Option<string>): string {
    if msg.Some? then msg.value else "(NULL)"
  }

  /** The journal line of a message. */
  function JournalLine(nm: Names, errnum: int, msg: Option<string>): string {
    Formed(Header(nm, errnum), MessageText(msg))
  }

  /** The journal line of the warning about it. */
  function WarningLine(nm: Names, errnum: int): string {
    Formed(Header(nm, 0), Warning(Header(nm, errnum)))
  }

  predicate NeedsWarning(nm: Names, errnum: int, msg: Option<string>) {
    Truncated(Header(nm, errnum), MessageText(msg))
  }

  /** The journal lines of the warnings about a message: one if its line is truncated. */
  function Warnings(nm: Names, errnum: int, msg: Option<string>): seq<string> {
    if NeedsWarning(nm, errnum, msg) then [WarningLine(nm, errnum)] else []
  }

  /** The journal lines of a message: a warning if one is needed, and its own line. */
  function Entries(nm: Names, errnum: int, msg: Option<string>): (lines: seq<string>)
    ensures 1 <= |lines| <= 2
  {
    Warnings(nm, errnum, msg) + [JournalLine(nm, errnum, msg)]
  }

  /** What it adds to the standard error output when the journal can not be used. */
  function StderrLine(nm: Names, errnum: int, msg: Option<string>): string {
    nm.pname + ": " + MessageText(msg) + nm.errtext(errnum)
  }

  /** The error number belongs to the first message only. */
  function ErrnumOf(errnum: int, n: nat): int {
    if n == 0 then errnum else 0
  }

  /** Too long for a journal line under some header. */
  predicate Long(msg: Option<string>) {
    |MessageText(msg)| + HEADER_SIZE > LAST
  }

  /** The library's messages come in two parts, of which the second may be missing. */
  function Joined(s1: CText, s2: Option<string>): (msg: string)
    ensures NUL !in MessageText(s2) ==> NUL !in msg
  {
    if s2.Some? && s2.value != "" then s1 + " " + s2.value else s1
  }

  /** Messages that tet_merr_stderr() prints: all but a null message without an error number. */
  function StderrLines(nm: Names, errnum: int, msgs: seq<Option<string>>, n: nat): seq<string>
    requires n <= |msgs|
  {
    if n == 0 then [] else
      var e, m := ErrnumOf(errnum, n - 1), msgs[n - 1];
      StderrLines(nm, errnum, msgs, n - 1) + if m == None && e == 0 then [] else [StderrLine(nm, e, m)]
  }

  /** The lines of several messages, */
  function AllLines(nm: Names, errnum: int, msgs: seq<Option<string>>): (lines: seq<string>)
    ensures |lines| == |msgs|
  {
    seq(|msgs|, i requires 0 <= i < |msgs| => JournalLine(nm, ErrnumOf(errnum, i), msgs[i]))
  }

  /** the warnings about the first n of them, */
  function AllWarnings(nm: Names, errnum: int, msgs: seq<Option<string>>, n: nat): seq<string>
    requires n <= |msgs|
  {
    if n == 0 then [] else AllWarnings(nm, errnum, msgs, n - 1) + Warnings(nm, ErrnumOf(errnum, n - 1), msgs[n - 1])
  }

  /** and both together, each warning in front of its line. */
  function AllEntries(nm: Names, errnum: int, msgs: seq<Option<string>>, n: nat): seq<string>
    requires n <= |msgs|
  {
    if n == 0 then [] else AllEntries(nm, errnum, msgs, n - 1) + Entries(nm, ErrnumOf(errnum, n - 1), msgs[n - 1])
  }

  // ---------------------------------------------------------------- one error number

  predicate NoneNull(msgs: seq<Option<string>>) {
    forall k :: 0 <= k < |msgs| ==> msgs[k].Some?
  }

  /** One printed line for each message: only the first one ends with the text of the error number. */
  predicate PrintedOnce(lines: seq<string>, nm: Names, errnum: int, msgs: seq<Option<string>>)
    requires NoneNull(msgs)
  {
    && |lines| == |msgs|
    && (lines != [] ==> lines[0] == nm.pname + ": " + msgs[0].value + nm.errtext(errnum))
    && forall k :: 0 < k < |lines| ==> lines[k] == nm.pname + ": " + msgs[k].value + nm.errtext(0)
  }

  lemma {:induction false} NumberPrintedOnce(nm: Names, errnum: int, msgs: seq<Option<string>>, n: nat)
    requires NoneNull(msgs) && n <= |msgs|
    ensures PrintedOnce(StderrLines(nm, errnum, msgs, n), nm, errnum, msgs[..n])
  {
    if n > 0 { NumberPrintedOnce(nm, errnum, msgs, n - 1); }
  }

  /** A null message is printed only if it is the first and there is an error number to print. */
  lemma NullPrintedIff(nm: Names, errnum: int, msgs: seq<Option<string>>, n: nat)
    requires n < |msgs| && msgs[n] == None
    ensures var before := StderrLines(nm, errnum, msgs, n);
            StderrLines(nm, errnum, msgs, n + 1)
            == if n == 0 && errnum != 0 then [nm.pname + ": (NULL)" + nm.errtext(errnum)] else before
  {
    assert nm.pname + ": " + "(NULL)" == nm.pname + ": (NULL)";
    if n == 0 { assert StderrLines(nm, errnum, msgs, 0) == []; }
  }

  /** One journal line for each message: only the first one has the error number in its header. */
  predicate SentOnce(lines: seq<string>, nm: Names, errnum: int, msgs: seq<Option<string>>)
    requires NoneNull(msgs)
  {
    && |lines| == |msgs|
    && (lines != [] ==> lines[0] == Formed(nm.prefix + nm.errtext(errnum) + ": ", msgs[0].value))
    && forall k :: 0 < k < |lines| ==> lines[k] == Formed(nm.prefix + nm.errtext(0) + ": ", msgs[k].value)
  }

  /** The warnings about the first n messages, and these with their lines, as if each was reported alone. */
  function PlainWarnings(nm: Names, msgs: seq<Option<string>>, n: nat): seq<string>
    requires n <= |msgs|
  {
    if n == 0 then [] else PlainWarnings(nm, msgs, n - 1) + Warnings(nm, 0, msgs[n - 1])
  }

  function PlainEntries(nm: Names, msgs: seq<Option<string>>, n: nat): seq<string>
    requires n <= |msgs|
  {
    if n == 0 then [] else PlainEntries(nm, msgs, n - 1) + Entries(nm, 0, msgs[n - 1])
  }

  lemma {:induction false} NumberSentOnce(nm: Names, errnum: int, msgs: seq<Option<string>>, n: nat)
    requires 0 < n <= |msgs|
    ensures NoneNull(msgs) ==> SentOnce(AllLines(nm, errnum, msgs), nm, errnum, msgs)
    ensures AllWarnings(nm, errnum, msgs, n) == Warnings(nm, errnum, msgs[0]) + PlainWarnings(nm, msgs[1..], n - 1)
    ensures AllEntries(nm, errnum, msgs, n) == Entries(nm, errnum, msgs[0]) + PlainEntries(nm, msgs[1..], n - 1)
  {
    if n > 1 {
      NumberSentOnce(nm, errnum, msgs, n - 1);
      assert msgs[1..][n - 2] == msgs[n - 1];
    } else {
      assert AllWarnings(nm, errnum, msgs, 0) == [] && AllEntries(nm, errnum, msgs, 0) == [];
    }
  }

  predicate NulFree(msgs: seq<Option<string>>) {
    forall i :: 0 <= i < |msgs| ==> NUL !in MessageText(msgs[i])
  }

  predicate EndsWith(s: seq<string>, t: seq<string>) {
    |t| <= |s| && s[|s| - |t|..] == t
  }

  /** Lines as messages to be reported. */
  function AsMessages(lines: seq<string>): (msgs: seq<Option<string>>)
    ensures |msgs| == |lines|
  {
    seq(|lines|, i requires 0 <= i < |lines| => Some(lines[i]))
  }

  lemma OneMessage(nm: Names, errnum: int, text: string)
    ensures StderrLines(nm, errnum, [Some(text)], 1) == [StderrLine(nm, errnum, Some(text))]
  {
    assert StderrLines(nm, errnum, [Some(text)], 0) == [];
  }

  lemma OneLine(nm: Names, line: string)
    ensures StderrLines(nm, 0, AsMessages([line]), 1) == [StderrLine(nm, 0, Some(line))]
  {
    assert AsMessages([line])[0] == Some(line);
  }

  lemma HeaderStarts(nm: Names, errnum: int)
    requires ValidNames(nm)
    ensures Header(nm, errnum) != "" && !IsSpace(Header(nm, errnum)[0])
    ensures |Header(nm, errnum)| < HEADER_SIZE && |Header(nm, 0)| < HEADER_SIZE && NUL !in Header(nm, errnum)
  {
    assert Header(nm, errnum)[0] == nm.prefix[0];
  }
}

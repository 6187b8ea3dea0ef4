/**
  What reporting comes to.  Every call of output() has an outcome; given these outcomes, the functions
  here say in closed form which lines reach the journal, which the standard error output, and when the
  process exits.
 */
module Delivery {
  import opened Options
  import opened Journal
  import opened LineBuffer
  import opened MessageForm

  /**
    The outcome of one call of output().  A failing call leaves some first part of its lines in the
    journal; the server library may report errors of its own before it returns, and the journal may
    be closed.
   */
  datatype Attempt = Attempt(ok: bool, kept: nat, errno: int, reports: seq<CText>, shut: bool)

  datatype Config = Config(nm: Names, lite: bool, plan: nat -> Attempt)

  /** What can be seen of the process: `sent` counts the calls of output(). */
  datatype World = World(journal: seq<string>, stderr: seq<string>, sent: nat, exited: bool)

  /** The outcome of the next call; the server library refuses to send no lines at all. */
  function Outcome(cfg: Config, sent: nat, lines: seq<string>): Attempt {
    var a := cfg.plan(sent);
    if !cfg.lite && lines == [] then a.(ok := false, reports := []) else a
  }

  function Kept(a: Attempt, lines: seq<string>): seq<string> {
    if a.kept < |lines| then lines[..a.kept] else lines
  }

  /** The journal lines of the first n reports, */
  function ReportEntries(nm: Names, reports: seq<CText>, n: nat): seq<string>
    requires n <= |reports|
  {
    if n == 0 then [] else ReportEntries(nm, reports, n - 1) + Entries(nm, 0, Some(reports[n - 1]))
  }

  function AllReports(nm: Names, a: Attempt): seq<string> {
    ReportEntries(nm, a.reports, |a.reports|)
  }

  /** and what they are on the standard error output. */
  function ReportWords(nm: Names, reports: seq<CText>, n: nat): seq<string>
    requires n <= |reports|
  {
    if n == 0 then [] else ReportWords(nm, reports, n - 1) + [StderrLine(nm, 0, Some(reports[n - 1]))]
  }

  /** The last words of a process that could not send these lines. */
  function LastWords(cfg: Config, a: Attempt, lines: seq<string>): seq<string> {
    [StderrLine(cfg.nm, if cfg.lite then 0 else a.errno, Some(Unsent(cfg.lite)))]
    + StderrLines(cfg.nm, 0, AsMessages(lines), |lines|)
  }

  /** What a quiet failure puts on the standard error output: errors are reported without the journal. */
  function Complaints(cfg: Config, a: Attempt): seq<string> {
    if cfg.lite then [StderrLine(cfg.nm, a.errno, Some(WRITE_ERROR))]
    else ReportWords(cfg.nm, a.reports, |a.reports|)
  }

  /**
    One call of output().  It is quiet while another report is under way or the journal is closed:
    then the server library's own reports go to the standard error output.  Otherwise they are sent
    to the journal like any other message.
   */
  function Tried(cfg: Config, quiet: bool, w: World, lines: seq<string>): World
    decreases if quiet then 0 else 1, 0, 0
  {
    var a := Outcome(cfg, w.sent, lines);
    if a.ok then World(w.journal + lines, w.stderr, w.sent + 1, w.exited)
    else
      var v := World(w.journal + Kept(a, lines), w.stderr, w.sent + 1, w.exited);
      if cfg.lite || quiet then v.(stderr := v.stderr + Complaints(cfg, a))
      else SentEach(cfg, true, v, AllReports(cfg.nm, a), |AllReports(cfg.nm, a)|)
  }

  /** tet_routput(): if the lines can not be sent, they are the last words. */
  function Delivered(cfg: Config, quiet: bool, w: World, lines: seq<string>): World
    decreases if quiet then 0 else 1, 0, 1
  {
    var a, v := Outcome(cfg, w.sent, lines), Tried(cfg, quiet, w, lines);
    if a.ok || v.exited then v
    else v.(stderr := v.stderr + LastWords(cfg, a, lines), exited := true)
  }

  /** The first n lines are sent one by one, until the process exits. */
  function SentEach(cfg: Config, quiet: bool, w: World, lines: seq<string>, n: nat): World
    requires n <= |lines|
    decreases if quiet then 0 else 1, n, 2
  {
    if n == 0 then w else
      var v := SentEach(cfg, quiet, w, lines, n - 1);
      if v.exited then v else Delivered(cfg, quiet, v, [lines[n - 1]])
  }

  /** The lines of one message are sent. */
  function Said(cfg: Config, quiet: bool, w: World, errnum: int, msg: Option<string>): World {
    SentEach(cfg, quiet, w, Entries(cfg.nm, errnum, msg), |Entries(cfg.nm, errnum, msg)|)
  }

  /** The warning about a message, if it needs one, is sent. */
  function Warned(cfg: Config, quiet: bool, w: World, errnum: int, msg: Option<string>): World {
    SentEach(cfg, quiet, w, Warnings(cfg.nm, errnum, msg), |Warnings(cfg.nm, errnum, msg)|)
  }

  /** The first n reports are sent, warnings and lines. */
  function SentReports(cfg: Config, w: World, reports: seq<CText>, n: nat): World
    requires n <= |reports|
  {
    SentEach(cfg, true, w, ReportEntries(cfg.nm, reports, n), |ReportEntries(cfg.nm, reports, n)|)
  }

  /** tet_dtcmerror(): quietly, or as a message during which all further errors are quiet. */
  function LibSaid(cfg: Config, quiet: bool, w: World, errnum: int, text: string): World {
    if quiet then w.(stderr := w.stderr + [StderrLine(cfg.nm, errnum, Some(text))])
    else Said(cfg, true, w, errnum, Some(text))
  }

  /** The first n reports of the server library are made. */
  function Reported(cfg: Config, quiet: bool, w: World, reports: seq<CText>, n: nat): World
    requires n <= |reports|
  {
    if quiet then w.(stderr := w.stderr + ReportWords(cfg.nm, reports, n)) else SentReports(cfg, w, reports, n)
  }

  /** The first n of several messages are said one after the other. */
  function SaidEach(cfg: Config, quiet: bool, w: World, errnum: int, msgs: seq<Option<string>>, n: nat): World
    requires n <= |msgs|
  {
    if n == 0 then w else
      var v := SaidEach(cfg, quiet, w, errnum, msgs, n - 1);
      if v.exited then v else Said(cfg, quiet, v, ErrnumOf(errnum, n - 1), msgs[n - 1])
  }

  /** The warnings about the first n of several messages are sent. */
  function WarnedEach(cfg: Config, quiet: bool, w: World, errnum: int, msgs: seq<Option<string>>, n: nat): World
    requires n <= |msgs|
  {
    if n == 0 then w else
      var v := WarnedEach(cfg, quiet, w, errnum, msgs, n - 1);
      if v.exited then v else Warned(cfg, quiet, v, ErrnumOf(errnum, n - 1), msgs[n - 1])
  }

  /** The requests for memory in tet_merr_stdchan(), for the pointers and then for the n lines, are all granted. */
  predicate HasStorage(refused: nat -> Option<int>, n: nat) {
    forall k :: 0 <= k <= n ==> refused(k) == None
  }

  /** The first request from k to n that is refused. */
  function FirstRefused(refused: nat -> Option<int>, k: nat, n: nat): (r: nat)
    requires k <= n + 1
    ensures k <= r <= n + 1 && (r <= n ==> refused(r).Some?) && forall i :: k <= i < r ==> refused(i) == None
    decreases n + 1 - k
  {
    if k > n || refused(k).Some? then k else FirstRefused(refused, k + 1, n)
  }

  /**
    The first loop of tet_merr_stdchan(): without memory for the pointers it goes on to the last warning, and
    without memory for a line it stops there.
   */
  function Collected(cfg: Config, quiet: bool, w: World, errnum: int, msgs: seq<Option<string>>,
                     refused: nat -> Option<int>): World
  {
    if refused(0).Some? then
      var v := LibSaid(cfg, quiet, w, refused(0).value, Joined(NO_POINTERS, None));
      if v.exited then v else WarnedEach(cfg, quiet, v, errnum, msgs, |msgs|)
    else
      var k := FirstRefused(refused, 1, |msgs|);
      if k > |msgs| then WarnedEach(cfg, quiet, w, errnum, msgs, |msgs|)
      else
        var v, n := WarnedEach(cfg, quiet, w, errnum, msgs, k), k - 1;
        var line := JournalLine(cfg.nm, ErrnumOf(errnum, n), msgs[n]);
        if v.exited then v else LibSaid(cfg, quiet, v, refused(k).value, Joined(NO_STRING, Some(line)))
  }

  /** Several messages are sent together, or one by one if there is no memory for that. */
  function SaidTogether(cfg: Config, quiet: bool, w: World, errnum: int, msgs: seq<Option<string>>,
                        refused: nat -> Option<int>): World
  {
    var v := Collected(cfg, quiet, w, errnum, msgs, refused);
    if v.exited then v
    else if HasStorage(refused, |msgs|) then Delivered(cfg, quiet, v, AllLines(cfg.nm, errnum, msgs))
    else SaidEach(cfg, quiet, v, errnum, msgs, |msgs|)
  }

  /** A closed journal: the messages go to the standard error output. */
  function Printed(cfg: Config, w: World, errnum: int, msgs: seq<Option<string>>): World {
    w.(stderr := w.stderr + StderrLines(cfg.nm, errnum, msgs, |msgs|))
  }

  // ---------------------------------------------------------------- laws

  lemma {:induction false} SentEachPrefix(cfg: Config, quiet: bool, w: World, a: seq<string>, b: seq<string>, n: nat)
    requires n <= |a| && n <= |b| && forall i :: 0 <= i < n ==> a[i] == b[i]
    ensures SentEach(cfg, quiet, w, a, n) == SentEach(cfg, quiet, w, b, n)
  {
    if n > 0 { SentEachPrefix(cfg, quiet, w, a, b, n - 1); }
  }

  /** Sending more lines goes on from where the first lines led. */
  lemma {:induction false} SentEachAppend(cfg: Config, quiet: bool, w: World, a: seq<string>, b: seq<string>, n: nat)
    requires n <= |b|
    ensures var v := SentEach(cfg, quiet, w, a, |a|);
            SentEach(cfg, quiet, w, a + b, |a| + n) == if v.exited then v else SentEach(cfg, quiet, v, b, n)
  {
    if n == 0 {
      SentEachPrefix(cfg, quiet, w, a + b, a, |a|);
    } else {
      SentEachAppend(cfg, quiet, w, a, b, n - 1);
    }
  }

  /** The call of output() with this number is successful. */
  predicate SendOk(cfg: Config, at: nat) {
    cfg.plan(at).ok
  }

  lemma DeliveredExits(cfg: Config, quiet: bool, w: World, line: string)
    requires !w.exited
    ensures Delivered(cfg, quiet, w, [line]).exited <==> !SendOk(cfg, w.sent)
    ensures SendOk(cfg, w.sent) ==>
              Delivered(cfg, quiet, w, [line]) == World(w.journal + [line], w.stderr, w.sent + 1, false)
  {
  }

  /** Nothing is lost as long as the process goes on: each line is in the journal, and nothing else is printed. */
  lemma {:induction false} SentAll(cfg: Config, quiet: bool, w: World, lines: seq<string>, n: nat)
    requires n <= |lines| && !SentEach(cfg, quiet, w, lines, n).exited
    ensures SentEach(cfg, quiet, w, lines, n) == World(w.journal + lines[..n], w.stderr, w.sent + n, false)
    ensures forall k :: w.sent <= k < w.sent + n ==> SendOk(cfg, k)
  {
    if n > 0 {
      var v := SentEach(cfg, quiet, w, lines, n - 1);
      assert !v.exited;
      SentAll(cfg, quiet, w, lines, n - 1);
      DeliveredExits(cfg, quiet, v, lines[n - 1]);
      OneMoreLine(w.journal, lines, n);
    } else {
      assert w.journal + lines[..0] == w.journal;
    }
  }

  lemma OneMoreLine(journal: seq<string>, lines: seq<string>, n: nat)
    requires 0 < n <= |lines|
    ensures journal + lines[..n - 1] + [lines[n - 1]] == journal + lines[..n]
  {
  }

  /** The process exits exactly if one of its sends fails. */
  lemma {:induction false} ExitsIffSendFails(cfg: Config, quiet: bool, w: World, lines: seq<string>, n: nat)
    requires n <= |lines| && !w.exited
    ensures SentEach(cfg, quiet, w, lines, n).exited <==> exists k :: w.sent <= k < w.sent + n && !SendOk(cfg, k)
  {
    if n > 0 {
      ExitsIffSendFails(cfg, quiet, w, lines, n - 1);
      var v := SentEach(cfg, quiet, w, lines, n - 1);
      if !v.exited {
        SentAll(cfg, quiet, w, lines, n - 1);
        DeliveredExits(cfg, quiet, v, lines[n - 1]);
      }
    }
  }

  /** One stage of a process leads to the other: the journal and the standard error output only grow. */
  predicate Grows(w: World, v: World) {
    w.journal <= v.journal && w.stderr <= v.stderr
  }

  lemma GrowsOn(u: World, v: World, w: World)
    requires Grows(u, v) && Grows(v, w)
    ensures Grows(u, w)
  {
  }

  lemma {:induction false} SentGrows(cfg: Config, quiet: bool, w: World, lines: seq<string>, n: nat)
    requires n <= |lines|
    ensures Grows(w, SentEach(cfg, quiet, w, lines, n))
    decreases if quiet then 0 else 1, n, 2
  {
    if n > 0 {
      SentGrows(cfg, quiet, w, lines, n - 1);
      DeliveredGrows(cfg, quiet, SentEach(cfg, quiet, w, lines, n - 1), [lines[n - 1]]);
    }
  }

  lemma {:induction false} DeliveredGrows(cfg: Config, quiet: bool, w: World, lines: seq<string>)
    ensures Grows(w, Delivered(cfg, quiet, w, lines))
    decreases if quiet then 0 else 1, 0, 1
  {
    TriedGrows(cfg, quiet, w, lines);
  }

  lemma {:induction false} TriedGrows(cfg: Config, quiet: bool, w: World, lines: seq<string>)
    ensures Grows(w, Tried(cfg, quiet, w, lines))
    decreases if quiet then 0 else 1, 0, 0
  {
    var a := Outcome(cfg, w.sent, lines);
    if !a.ok && !cfg.lite && !quiet {
      var v := World(w.journal + Kept(a, lines), w.stderr, w.sent + 1, w.exited);
      SentGrows(cfg, true, v, AllReports(cfg.nm, a), |AllReports(cfg.nm, a)|);
    }
  }

  /** A failed call comes down to the complaint about it, or to the reports of the server library. */
  lemma TriedFails(cfg: Config, quiet: bool, w: World, lines: seq<string>)
    requires !Outcome(cfg, w.sent, lines).ok
    ensures var a := Outcome(cfg, w.sent, lines);
            var v := World(w.journal + Kept(a, lines), w.stderr, w.sent + 1, w.exited);
            Tried(cfg, quiet, w, lines)
            == if cfg.lite then LibSaid(cfg, true, v, a.errno, WRITE_ERROR)
               else Reported(cfg, quiet, v, a.reports, |a.reports|)
  {
  }

  /** tet_routput() prints its last words in two steps. */
  lemma LastWordsPrinted(cfg: Config, quiet: bool, w: World, lines: seq<string>)
    requires !Outcome(cfg, w.sent, lines).ok && !Tried(cfg, quiet, w, lines).exited
    ensures var a := Outcome(cfg, w.sent, lines);
            var u := Tried(cfg, quiet, w, lines);
            var v := Printed(cfg, u, if cfg.lite then 0 else a.errno, [Some(Unsent(cfg.lite))]);
            Delivered(cfg, quiet, w, lines) == Printed(cfg, v, 0, AsMessages(lines)).(exited := true)
  {
    hide Tried, StderrLine;
    var a := Outcome(cfg, w.sent, lines);
    OneMessage(cfg.nm, if cfg.lite then 0 else a.errno, Unsent(cfg.lite));
  }

  lemma FirstReport(cfg: Config, quiet: bool, w: World, reports: seq<CText>)
    ensures Reported(cfg, quiet, w, reports, 0) == w
  {
    assert w.stderr + ReportWords(cfg.nm, reports, 0) == w.stderr;
  }

  lemma OneMoreReport(cfg: Config, quiet: bool, w: World, reports: seq<CText>, n: nat)
    requires n < |reports|
    ensures var v := Reported(cfg, quiet, w, reports, n);
            quiet || !v.exited ==>
              Reported(cfg, quiet, w, reports, n + 1) == LibSaid(cfg, quiet, v, 0, reports[n])
  {
    if quiet {
      var words := ReportWords(cfg.nm, reports, n);
      assert w.stderr + (words + [StderrLine(cfg.nm, 0, Some(reports[n]))])
          == w.stderr + words + [StderrLine(cfg.nm, 0, Some(reports[n]))];
    } else {
      OneMoreSent(cfg, w, reports, n);
    }
  }

  lemma OneMoreSent(cfg: Config, w: World, reports: seq<CText>, n: nat)
    requires n < |reports|
    ensures var v := SentReports(cfg, w, reports, n);
            SentReports(cfg, w, reports, n + 1) == if v.exited then v else Said(cfg, true, v, 0, Some(reports[n]))
  {
    SentEachFurther(cfg, w, ReportEntries(cfg.nm, reports, n), Entries(cfg.nm, 0, Some(reports[n])));
  }

  lemma SentEachFurther(cfg: Config, w: World, a: seq<string>, b: seq<string>)
    ensures var v := SentEach(cfg, true, w, a, |a|);
            SentEach(cfg, true, w, a + b, |a + b|) == if v.exited then v else SentEach(cfg, true, v, b, |b|)
  {
    SentEachAppend(cfg, true, w, a, b, |b|);
  }

  /** Once the process has exited the remaining reports change nothing. */
  lemma {:induction false} SentReportsStop(cfg: Config, w: World, reports: seq<CText>, m: nat, n: nat)
    requires m <= n <= |reports| && SentReports(cfg, w, reports, m).exited
    ensures SentReports(cfg, w, reports, n) == SentReports(cfg, w, reports, m)
  {
    hide SentReports, Said;
    if m < n {
      SentReportsStop(cfg, w, reports, m, n - 1);
      OneMoreSent(cfg, w, reports, n - 1);
    }
  }

  lemma ReportsStop(cfg: Config, quiet: bool, w: World, reports: seq<CText>, n: nat)
    requires n <= |reports| && !w.exited && Reported(cfg, quiet, w, reports, n).exited
    ensures Reported(cfg, quiet, w, reports, |reports|) == Reported(cfg, quiet, w, reports, n)
  {
    SentReportsStop(cfg, w, reports, n, |reports|);
  }

  /** A message is said by sending its warning and then its line. */
  lemma SaidByWarnings(cfg: Config, quiet: bool, w: World, errnum: int, msg: Option<string>)
    ensures var v := Warned(cfg, quiet, w, errnum, msg);
            Said(cfg, quiet, w, errnum, msg)
            == if v.exited then v else Delivered(cfg, quiet, v, [JournalLine(cfg.nm, errnum, msg)])
  {
    var line := [JournalLine(cfg.nm, errnum, msg)];
    var v := Warned(cfg, quiet, w, errnum, msg);
    SentEachAppend(cfg, quiet, w, Warnings(cfg.nm, errnum, msg), line, 1);
    assert SentEach(cfg, quiet, v, line, 0) == v;
  }

  /** The warning itself is said without another warning. */
  lemma WarningSaid(cfg: Config, quiet: bool, w: World, errnum: int, msg: Option<string>)
    requires ValidNames(cfg.nm) && NeedsWarning(cfg.nm, errnum, msg)
    ensures Said(cfg, quiet, w, 0, Some(Warning(Header(cfg.nm, errnum)))) == Warned(cfg, quiet, w, errnum, msg)
  {
    var header := Header(cfg.nm, errnum);
    HeaderStarts(cfg.nm, 0);
    WarningNotTruncated(header, Header(cfg.nm, 0));
    assert Entries(cfg.nm, 0, Some(Warning(header))) == Warnings(cfg.nm, errnum, msg);
  }

  lemma SentAllGrows(cfg: Config, quiet: bool, w: World, lines: seq<string>)
    ensures var v := SentEach(cfg, quiet, w, lines, |lines|);
            Grows(w, v) && (!v.exited ==> v.journal == w.journal + lines && v.stderr == w.stderr)
  {
    SentGrows(cfg, quiet, w, lines, |lines|);
    assert lines[..|lines|] == lines;
    if !SentEach(cfg, quiet, w, lines, |lines|).exited { SentAll(cfg, quiet, w, lines, |lines|); }
  }

  lemma SaidGrows(cfg: Config, quiet: bool, w: World, errnum: int, msg: Option<string>)
    ensures var v := Said(cfg, quiet, w, errnum, msg);
            Grows(w, v)
            && (!v.exited ==> v.journal == w.journal + Entries(cfg.nm, errnum, msg) && v.stderr == w.stderr)
  {
    SentAllGrows(cfg, quiet, w, Entries(cfg.nm, errnum, msg));
  }

  lemma WarnedGrows(cfg: Config, quiet: bool, w: World, errnum: int, msg: Option<string>)
    ensures var v := Warned(cfg, quiet, w, errnum, msg);
            Grows(w, v)
            && (!v.exited ==> v.journal == w.journal + Warnings(cfg.nm, errnum, msg) && v.stderr == w.stderr)
  {
    SentAllGrows(cfg, quiet, w, Warnings(cfg.nm, errnum, msg));
  }

  lemma GrowsFurther(w: World, v: World, u: World, added: seq<string>, more: seq<string>)
    requires Grows(w, v) && v.journal == w.journal + added
    requires Grows(v, u) && (!u.exited ==> u.journal == v.journal + more)
    ensures Grows(w, u) && (!u.exited ==> u.journal == w.journal + (added + more))
  {
    assert w.journal + added + more == w.journal + (added + more);
  }

  lemma {:induction false} SaidEachGrows(cfg: Config, quiet: bool, w: World, errnum: int, msgs: seq<Option<string>>,
                                         n: nat)
    requires n <= |msgs|
    ensures var v := SaidEach(cfg, quiet, w, errnum, msgs, n);
            Grows(w, v) && (!v.exited ==> v.journal == w.journal + AllEntries(cfg.nm, errnum, msgs, n))
  {
    if n > 0 {
      var v, e := SaidEach(cfg, quiet, w, errnum, msgs, n - 1), ErrnumOf(errnum, n - 1);
      SaidEachGrows(cfg, quiet, w, errnum, msgs, n - 1);
      if !v.exited {
        var u := Said(cfg, quiet, v, e, msgs[n - 1]);
        SaidGrows(cfg, quiet, v, e, msgs[n - 1]);
        GrowsFurther(w, v, u, AllEntries(cfg.nm, errnum, msgs, n - 1), Entries(cfg.nm, e, msgs[n - 1]));
      }
    }
  }

  lemma {:induction false} WarnedEachGrows(cfg: Config, quiet: bool, w: World, errnum: int, msgs: seq<Option<string>>,
                                           n: nat)
    requires n <= |msgs|
    ensures var v := WarnedEach(cfg, quiet, w, errnum, msgs, n);
            Grows(w, v) && (!v.exited ==> v.journal == w.journal + AllWarnings(cfg.nm, errnum, msgs, n))
  {
    if n > 0 {
      var v, e := WarnedEach(cfg, quiet, w, errnum, msgs, n - 1), ErrnumOf(errnum, n - 1);
      WarnedEachGrows(cfg, quiet, w, errnum, msgs, n - 1);
      if !v.exited {
        var u := Warned(cfg, quiet, v, e, msgs[n - 1]);
        WarnedGrows(cfg, quiet, v, e, msgs[n - 1]);
        GrowsFurther(w, v, u, AllWarnings(cfg.nm, errnum, msgs, n - 1), Warnings(cfg.nm, e, msgs[n - 1]));
      }
    }
  }

  lemma {:induction false} SaidEachStops(cfg: Config, quiet: bool, w: World, errnum: int, msgs: seq<Option<string>>,
                                         m: nat, n: nat)
    requires m <= n <= |msgs| && SaidEach(cfg, quiet, w, errnum, msgs, m).exited
    ensures SaidEach(cfg, quiet, w, errnum, msgs, n) == SaidEach(cfg, quiet, w, errnum, msgs, m)
  {
    hide Said;
    if m < n { SaidEachStops(cfg, quiet, w, errnum, msgs, m, n - 1); }
  }

  lemma {:induction false} WarnedEachStops(cfg: Config, quiet: bool, w: World, errnum: int, msgs: seq<Option<string>>,
                                           m: nat, n: nat)
    requires m <= n <= |msgs| && WarnedEach(cfg, quiet, w, errnum, msgs, m).exited
    ensures WarnedEach(cfg, quiet, w, errnum, msgs, n) == WarnedEach(cfg, quiet, w, errnum, msgs, m)
  {
    hide Warned;
    if m < n { WarnedEachStops(cfg, quiet, w, errnum, msgs, m, n - 1); }
  }

  lemma {:induction false} FirstRefusedIs(refused: nat -> Option<int>, k: nat, r: nat, n: nat)
    requires k <= r <= n + 1 && (r <= n ==> refused(r).Some?) && forall i :: k <= i < r ==> refused(i) == None
    ensures FirstRefused(refused, k, n) == r
    decreases r - k
  {
    if k < r { FirstRefusedIs(refused, k + 1, r, n); }
  }

  /** Without memory for line n - 1 the loop ends after its warning. */
  lemma CollectingEnds(cfg: Config, quiet: bool, w: World, errnum: int, msgs: seq<Option<string>>,
                       refused: nat -> Option<int>, n: nat)
    requires 0 < n <= |msgs| && refused(n).Some? && forall i :: 0 <= i < n ==> refused(i) == None
    ensures var v, line := WarnedEach(cfg, quiet, w, errnum, msgs, n),
                           JournalLine(cfg.nm, ErrnumOf(errnum, n - 1), msgs[n - 1]);
            !v.exited ==> Collected(cfg, quiet, w, errnum, msgs, refused)
                          == LibSaid(cfg, quiet, v, refused(n).value, Joined(NO_STRING, Some(line)))
  {
    hide WarnedEach, LibSaid, JournalLine, Joined, ErrnumOf;
    FirstRefusedIs(refused, 1, n, |msgs|);
  }

  /** Without memory for the pointers it goes on from the report about that. */
  lemma CollectingWithout(cfg: Config, quiet: bool, w: World, errnum: int, msgs: seq<Option<string>>,
                          refused: nat -> Option<int>, n: nat)
    requires n <= |msgs| && refused(0).Some?
    ensures var v := LibSaid(cfg, quiet, w, refused(0).value, Joined(NO_POINTERS, None));
            && (v.exited ==> Collected(cfg, quiet, w, errnum, msgs, refused) == v)
            && (!v.exited && (n == |msgs| || WarnedEach(cfg, quiet, v, errnum, msgs, n).exited) ==>
                  Collected(cfg, quiet, w, errnum, msgs, refused) == WarnedEach(cfg, quiet, v, errnum, msgs, n))
  {
    var v := LibSaid(cfg, quiet, w, refused(0).value, Joined(NO_POINTERS, None));
    if WarnedEach(cfg, quiet, v, errnum, msgs, n).exited { WarnedEachStops(cfg, quiet, v, errnum, msgs, n, |msgs|); }
    hide WarnedEach, LibSaid;
  }

  /** With all memory it goes on to the end. */
  lemma CollectingAll(cfg: Config, quiet: bool, w: World, errnum: int, msgs: seq<Option<string>>,
                      refused: nat -> Option<int>)
    requires HasStorage(refused, |msgs|)
    ensures Collected(cfg, quiet, w, errnum, msgs, refused) == WarnedEach(cfg, quiet, w, errnum, msgs, |msgs|)
  {
    FirstRefusedIs(refused, 1, |msgs| + 1, |msgs|);
    hide WarnedEach, LibSaid;
  }

  lemma NoneWarned(cfg: Config, quiet: bool, w: World, errnum: int, msgs: seq<Option<string>>)
    ensures WarnedEach(cfg, quiet, w, errnum, msgs, 0) == w
  {
  }

  /** A process that exits with the warning about message n - 1 gets no further. */
  lemma CollectingStops(cfg: Config, quiet: bool, w: World, errnum: int, msgs: seq<Option<string>>,
                        refused: nat -> Option<int>, n: nat)
    requires 0 < n <= |msgs| && forall i :: 0 <= i < n ==> refused(i) == None
    requires WarnedEach(cfg, quiet, w, errnum, msgs, n).exited
    ensures Collected(cfg, quiet, w, errnum, msgs, refused) == WarnedEach(cfg, quiet, w, errnum, msgs, n)
  {
    hide WarnedEach, LibSaid, JournalLine, Joined, ErrnumOf;
    var k := FirstRefused(refused, 1, |msgs|);
    WarnedEachStops(cfg, quiet, w, errnum, msgs, n, if k <= |msgs| then k else |msgs|);
  }

  /** Whatever is delivered without an exit is in the journal. */
  lemma DeliveredAll(cfg: Config, quiet: bool, w: World, lines: seq<string>)
    ensures var v := Delivered(cfg, quiet, w, lines);
            !v.exited ==> v.journal == w.journal + lines && v.stderr == w.stderr
  {
  }

  // ---------------------------------------------------------------- last words

  /** A send fails, and so does a report of the server library about it: the process exits with that report. */
  predicate ReportFails(cfg: Config, quiet: bool, at: nat) {
    && !SendOk(cfg, at) && !cfg.lite && !quiet
    && exists k :: at < k <= at + |AllReports(cfg.nm, cfg.plan(at))| && !SendOk(cfg, k)
  }

  /**
    After a failed send the line is among the last words of the process, unless a report about the
    failure has failed itself: then the process has gone already.
   */
  lemma LastWordsIff(cfg: Config, quiet: bool, w: World, line: string)
    requires !w.exited && !SendOk(cfg, w.sent)
    ensures Tried(cfg, quiet, w, [line]).exited <==> ReportFails(cfg, quiet, w.sent)
    ensures var a, v := cfg.plan(w.sent), Tried(cfg, quiet, w, [line]);
            Delivered(cfg, quiet, w, [line])
            == if ReportFails(cfg, quiet, w.sent) then v
               else v.(stderr := v.stderr + LastWords(cfg, a, [line]), exited := true)
  {
    var a := cfg.plan(w.sent);
    if !cfg.lite && !quiet {
      var v := World(w.journal + Kept(a, [line]), w.stderr, w.sent + 1, false);
      ExitsIffSendFails(cfg, true, v, AllReports(cfg.nm, a), |AllReports(cfg.nm, a)|);
    }
  }

  /** A failing call leaves as many of its lines as it kept, the first ones, in the journal. */
  lemma FirstLinesKept(cfg: Config, quiet: bool, w: World, lines: seq<string>)
    requires !Outcome(cfg, w.sent, lines).ok
    ensures var kept, v := cfg.plan(w.sent).kept, Tried(cfg, quiet, w, lines);
            var first := if kept < |lines| then lines[..kept] else lines;
            w.journal + first <= v.journal && (cfg.lite || quiet ==> v.journal == w.journal + first)
  {
    hide SentEach, AllReports, Complaints;
    var a := Outcome(cfg, w.sent, lines);
    if !cfg.lite && !quiet {
      var v := World(w.journal + Kept(a, lines), w.stderr, w.sent + 1, w.exited);
      SentGrows(cfg, true, v, AllReports(cfg.nm, a), |AllReports(cfg.nm, a)|);
    }
  }

  /** The server library refuses to send no lines at all, so that an empty list of messages ends the process. */
  lemma NoLinesRefused(cfg: Config, quiet: bool, w: World)
    requires !w.exited
    ensures var a, v := cfg.plan(w.sent), Delivered(cfg, quiet, w, []);
            if cfg.lite then v.exited <==> !a.ok
            else v == World(w.journal, w.stderr + [cfg.nm.pname + ": " + UNSENT + cfg.nm.errtext(a.errno)],
                            w.sent + 1, true)
  {
    var a := Outcome(cfg, w.sent, []);
    assert AsMessages([]) == [];
    if !cfg.lite {
      assert AllReports(cfg.nm, a) == [] && w.journal + [] == w.journal && w.stderr + [] == w.stderr;
    }
  }

  lemma {:induction false} ReportWordsAre(nm: Names, reports: seq<CText>, n: nat, k: nat)
    requires k < n <= |reports|
    ensures |ReportWords(nm, reports, n)| == n
    ensures ReportWords(nm, reports, n)[k] == nm.pname + ": " + reports[k] + nm.errtext(0)
  {
    if k < n - 1 { ReportWordsAre(nm, reports, n - 1, k); } else if n > 1 { ReportWordsAre(nm, reports, n - 1, 0); }
  }

  /** The complaints of a quiet failure: one line about the file, or one for each report of the server library. */
  predicate ComplaintsAre(lines: seq<string>, cfg: Config, a: Attempt) {
    && |lines| == (if cfg.lite then 1 else |a.reports|)
    && (cfg.lite ==> lines[0] == cfg.nm.pname + ": " + WRITE_ERROR + cfg.nm.errtext(a.errno))
    && (!cfg.lite ==> forall k :: 0 <= k < |lines| ==>
          lines[k] == cfg.nm.pname + ": " + a.reports[k] + cfg.nm.errtext(0))
  }

  lemma ComplaintsRead(cfg: Config, a: Attempt)
    ensures ComplaintsAre(Complaints(cfg, a), cfg, a)
  {
    if !cfg.lite {
      forall k | 0 <= k < |a.reports|
        ensures |Complaints(cfg, a)| == |a.reports|
        ensures Complaints(cfg, a)[k] == cfg.nm.pname + ": " + a.reports[k] + cfg.nm.errtext(0)
      {
        ReportWordsAre(cfg.nm, a.reports, |a.reports|, k);
      }
    }
  }

  /**
    What a process prints when it exits because it could not send a line: complaints, if the failure was
    quiet, then what it could not do, with the error number if the server library left one, and the line.
   */
  lemma LastWordsRead(cfg: Config, quiet: bool, w: World, line: string)
    requires !w.exited && !SendOk(cfg, w.sent) && !ReportFails(cfg, quiet, w.sent)
    ensures var a, v := cfg.plan(w.sent), Delivered(cfg, quiet, w, [line]);
            && v.exited && Grows(w, v)
            && var added := v.stderr[|w.stderr|..]; var n := |added| - 2;
            && n >= 0 && (if cfg.lite || quiet then ComplaintsAre(added[..n], cfg, a) else n == 0)
            && added[n] == cfg.nm.pname + ": " + (if cfg.lite then UNWRITTEN else UNSENT)
                           + cfg.nm.errtext(if cfg.lite then 0 else a.errno)
            && added[n + 1] == cfg.nm.pname + ": " + line + cfg.nm.errtext(0)
  {
    hide Delivered, Tried, ReportFails, Complaints, ComplaintsAre;
    var a, v := cfg.plan(w.sent), Delivered(cfg, quiet, w, [line]);
    LastWordsIff(cfg, quiet, w, line);
    FailureWords(cfg, quiet, w, line);
    ComplaintsRead(cfg, a);
    var complaints := if cfg.lite || quiet then Complaints(cfg, a) else [];
    var last := LastWords(cfg, a, [line]);
    LastWordsAre(cfg, a, line);
    hide LastWords;
    assert v.stderr == w.stderr + (complaints + last);
    assert v.stderr[|w.stderr|..] == complaints + last && (complaints + last)[..|complaints|] == complaints;
    DeliveredGrows(cfg, quiet, w, [line]);
  }

  lemma LastWordsAre(cfg: Config, a: Attempt, line: string)
    ensures LastWords(cfg, a, [line])
            == [cfg.nm.pname + ": " + (if cfg.lite then UNWRITTEN else UNSENT)
                + cfg.nm.errtext(if cfg.lite then 0 else a.errno),
                cfg.nm.pname + ": " + line + cfg.nm.errtext(0)]
  {
    OneLine(cfg.nm, line);
  }

  /** A failed send that kept the line leaves it next in the journal. */
  lemma FailureKeeps(cfg: Config, quiet: bool, w: World, line: string)
    requires !w.exited && !SendOk(cfg, w.sent) && cfg.plan(w.sent).kept > 0
    ensures w.journal + [line] <= Tried(cfg, quiet, w, [line]).journal
  {
    hide SentEach, AllReports, Complaints;
    var a := cfg.plan(w.sent);
    assert Kept(a, [line]) == [line];
    if !cfg.lite && !quiet {
      var v := World(w.journal + Kept(a, [line]), w.stderr, w.sent + 1, false);
      SentGrows(cfg, true, v, AllReports(cfg.nm, a), |AllReports(cfg.nm, a)|);
    }
  }

  /** If the process goes on, what the failure itself printed does not depend on the line. */
  lemma FailureWords(cfg: Config, quiet: bool, w: World, line: string)
    requires !w.exited && !SendOk(cfg, w.sent) && !Tried(cfg, quiet, w, [line]).exited
    ensures Tried(cfg, quiet, w, [line]).stderr
            == w.stderr + if cfg.lite || quiet then Complaints(cfg, cfg.plan(w.sent)) else []
  {
    var a := cfg.plan(w.sent);
    if !cfg.lite && !quiet {
      var v := World(w.journal + Kept(a, [line]), w.stderr, w.sent + 1, false);
      SentAll(cfg, true, v, AllReports(cfg.nm, a), |AllReports(cfg.nm, a)|);
    }
  }

  lemma FailureForgets(cfg: Config, quiet: bool, w: World, line: string, other: string)
    requires !w.exited && !SendOk(cfg, w.sent) && cfg.plan(w.sent).kept == 0
    ensures Tried(cfg, quiet, w, [line]) == Tried(cfg, quiet, w, [other])
  {
  }

  // ---------------------------------------------------------------- lost messages

  /** What is printed does not tell the message from another one of its kind. */
  ghost predicate Lost(cfg: Config, quiet: bool, w: World, errnum: int, msg: Option<string>) {
    forall other: Option<string> :: NeedsWarning(cfg.nm, errnum, other) == NeedsWarning(cfg.nm, errnum, msg) ==>
      Said(cfg, quiet, w, errnum, other) == Said(cfg, quiet, w, errnum, msg)
  }

  /** The line's own send fails, keeps nothing of it, and fails again in reporting that. */
  predicate Swallowed(cfg: Config, quiet: bool, at: nat) {
    cfg.plan(at).kept == 0 && ReportFails(cfg, quiet, at)
  }

  lemma SaidInTurn(cfg: Config, quiet: bool, w: World, errnum: int, msg: Option<string>)
    requires !w.exited
    ensures var first := Delivered(cfg, quiet, w, [WarningLine(cfg.nm, errnum)]);
            Said(cfg, quiet, w, errnum, msg)
            == if !NeedsWarning(cfg.nm, errnum, msg) then Delivered(cfg, quiet, w, [JournalLine(cfg.nm, errnum, msg)])
               else if first.exited then first
               else Delivered(cfg, quiet, first, [JournalLine(cfg.nm, errnum, msg)])
  {
    var lines := Entries(cfg.nm, errnum, msg);
    assert SentEach(cfg, quiet, w, lines, 0) == w;
    if NeedsWarning(cfg.nm, errnum, msg) {
      assert lines == [WarningLine(cfg.nm, errnum), JournalLine(cfg.nm, errnum, msg)];
      assert SentEach(cfg, quiet, w, lines, 1) == Delivered(cfg, quiet, w, [lines[0]]);
    } else {
      assert lines == [JournalLine(cfg.nm, errnum, msg)];
    }
  }

  /** Different lines can be told apart by what sending them prints, unless they are swallowed. */
  lemma LinesDiffer(cfg: Config, quiet: bool, w: World, line: string, other: string)
    requires !w.exited && line != other
    ensures Delivered(cfg, quiet, w, [line]) == Delivered(cfg, quiet, w, [other]) <==> Swallowed(cfg, quiet, w.sent)
  {
    if SendOk(cfg, w.sent) {
      DeliveredExits(cfg, quiet, w, line);
      DeliveredExits(cfg, quiet, w, other);
      assert (w.journal + [line])[|w.journal|] != (w.journal + [other])[|w.journal|];
    } else if ReportFails(cfg, quiet, w.sent) {
      SwallowedDiffer(cfg, quiet, w, line, other);
    } else {
      LastWordsDiffer(cfg, quiet, w, line, other);
    }
  }

  lemma SwallowedDiffer(cfg: Config, quiet: bool, w: World, line: string, other: string)
    requires !w.exited && line != other && ReportFails(cfg, quiet, w.sent)
    ensures Delivered(cfg, quiet, w, [line]) == Delivered(cfg, quiet, w, [other]) <==> cfg.plan(w.sent).kept == 0
  {
    LastWordsIff(cfg, quiet, w, line);
    LastWordsIff(cfg, quiet, w, other);
    if cfg.plan(w.sent).kept == 0 {
      FailureForgets(cfg, quiet, w, line, other);
    } else {
      FailureKeeps(cfg, quiet, w, line);
      FailureKeeps(cfg, quiet, w, other);
      NextDiffers(w.journal, line, other, Tried(cfg, quiet, w, [line]).journal, Tried(cfg, quiet, w, [other]).journal);
    }
  }

  lemma NextDiffers(was: seq<string>, line: string, other: string, s: seq<string>, t: seq<string>)
    requires line != other && was + [line] <= s && was + [other] <= t
    ensures s != t
  {
    assert s[|was|] == (was + [line])[|was|] && t[|was|] == (was + [other])[|was|];
  }

  lemma LastWordsDiffer(cfg: Config, quiet: bool, w: World, line: string, other: string)
    requires !w.exited && line != other && !SendOk(cfg, w.sent) && !ReportFails(cfg, quiet, w.sent)
    ensures Delivered(cfg, quiet, w, [line]) != Delivered(cfg, quiet, w, [other])
  {
    LastWordsIff(cfg, quiet, w, line);
    LastWordsIff(cfg, quiet, w, other);
    FailureWords(cfg, quiet, w, line);
    FailureWords(cfg, quiet, w, other);
    WordsDiffer(cfg, cfg.plan(w.sent), Tried(cfg, quiet, w, [line]).stderr, line, other);
  }

  lemma WordsDiffer(cfg: Config, a: Attempt, stderr: seq<string>, line: string, other: string)
    requires line != other
    ensures stderr + LastWords(cfg, a, [line]) != stderr + LastWords(cfg, a, [other])
  {
    var s, t := stderr + LastWords(cfg, a, [line]), stderr + LastWords(cfg, a, [other]);
    OneLine(cfg.nm, line);
    OneLine(cfg.nm, other);
    StderrLineTells(cfg.nm, line, other);
    assert s[|stderr| + 1] == StderrLine(cfg.nm, 0, Some(line));
    assert t[|stderr| + 1] == StderrLine(cfg.nm, 0, Some(other));
  }

  lemma StderrLineTells(nm: Names, line: string, other: string)
    requires line != other
    ensures StderrLine(nm, 0, Some(line)) != StderrLine(nm, 0, Some(other))
  {
    var s, t, p := StderrLine(nm, 0, Some(line)), StderrLine(nm, 0, Some(other)), |nm.pname| + 2;
    if |line| == |other| {
      var i :| 0 <= i < |line| && line[i] != other[i];
      assert s[p + i] == line[i] && t[p + i] == other[i];
    } else {
      assert |s| == p + |line| + |nm.errtext(0)| && |t| == p + |other| + |nm.errtext(0)|;
    }
  }

  /** For every message there is another of its kind whose line is different. */
  lemma AnotherMessage(nm: Names, errnum: int, msg: Option<string>) returns (other: Option<string>)
    requires ValidNames(nm)
    ensures NeedsWarning(nm, errnum, other) == NeedsWarning(nm, errnum, msg)
    ensures JournalLine(nm, errnum, other) != JournalLine(nm, errnum, msg)
  {
    HeaderStarts(nm, errnum);
    var n := if NeedsWarning(nm, errnum, msg) then LAST else 1;
    var xs, ys := seq(n, i => 'x'), seq(n, i => 'y');
    var hx, hy := Formed(Header(nm, errnum), xs), Formed(Header(nm, errnum), ys);
    FormedIs(Header(nm, errnum), xs);
    FormedIs(Header(nm, errnum), ys);
    var k := FormLength(Header(nm, errnum), xs);
    assert FormChar(Header(nm, errnum), xs, k - 1) == 'x' && FormChar(Header(nm, errnum), ys, k - 1) == 'y';
    assert hx[k - 1] == 'x' && hy[k - 1] == 'y';
    other := if hx == JournalLine(nm, errnum, msg) then Some(ys) else Some(xs);
  }

  /**
    A message is lost exactly if it needs a warning and the warning's send fails, or if its own send
    fails, keeps nothing, and the server library's report about that fails as well.
   */
  lemma MessageLostIff(cfg: Config, quiet: bool, w: World, errnum: int, msg: Option<string>)
    requires ValidNames(cfg.nm) && !w.exited
    ensures Lost(cfg, quiet, w, errnum, msg)
            <==> if !NeedsWarning(cfg.nm, errnum, msg) then Swallowed(cfg, quiet, w.sent)
                 else !SendOk(cfg, w.sent) || Swallowed(cfg, quiet, w.sent + 1)
  {
    var first := Delivered(cfg, quiet, w, [WarningLine(cfg.nm, errnum)]);
    DeliveredExits(cfg, quiet, w, WarningLine(cfg.nm, errnum));
    var at := if NeedsWarning(cfg.nm, errnum, msg) then first else w;
    forall other: Option<string> | NeedsWarning(cfg.nm, errnum, other) == NeedsWarning(cfg.nm, errnum, msg)
      ensures Said(cfg, quiet, w, errnum, other) == Said(cfg, quiet, w, errnum, msg)
              <==> at.exited || JournalLine(cfg.nm, errnum, other) == JournalLine(cfg.nm, errnum, msg)
                   || Swallowed(cfg, quiet, at.sent)
    {
      SaidInTurn(cfg, quiet, w, errnum, msg);
      SaidInTurn(cfg, quiet, w, errnum, other);
      if !at.exited && JournalLine(cfg.nm, errnum, other) != JournalLine(cfg.nm, errnum, msg) {
        LinesDiffer(cfg, quiet, at, JournalLine(cfg.nm, errnum, other), JournalLine(cfg.nm, errnum, msg));
      }
    }
    var other := AnotherMessage(cfg.nm, errnum, msg);
  }

  /** The message's line, or what is printed in its place, has been added to one of the two outputs. */
  predicate Shown(cfg: Config, w: World, v: World, errnum: int, msg: Option<string>) {
    var line := JournalLine(cfg.nm, errnum, msg);
    && Grows(w, v)
    && (line in v.journal[|w.journal|..] || StderrLine(cfg.nm, 0, Some(line)) in v.stderr[|w.stderr|..])
  }

  /** A line whose sending is tried is shown, unless it is swallowed. */
  lemma LineShown(cfg: Config, quiet: bool, w: World, errnum: int, msg: Option<string>)
    requires !w.exited && !Swallowed(cfg, quiet, w.sent)
    ensures var v := Delivered(cfg, quiet, w, [JournalLine(cfg.nm, errnum, msg)]);
            Shown(cfg, w, v, errnum, msg)
  {
    var line := JournalLine(cfg.nm, errnum, msg);
    var v := Delivered(cfg, quiet, w, [line]);
    DeliveredGrows(cfg, quiet, w, [line]);
    DeliveredExits(cfg, quiet, w, line);
    if SendOk(cfg, w.sent) {
      assert v.journal[|w.journal|..] == [line];
    } else if ReportFails(cfg, quiet, w.sent) {
      LastWordsIff(cfg, quiet, w, line);
      FailureKeeps(cfg, quiet, w, line);
      assert v.journal[|w.journal|] == line;
    } else {
      LastWordsIff(cfg, quiet, w, line);
      FailureWords(cfg, quiet, w, line);
      OneLine(cfg.nm, line);
      LastIsAdded(w.stderr, v.stderr, StderrLine(cfg.nm, 0, Some(line)));
    }
  }

  lemma LastIsAdded(was: seq<string>, s: seq<string>, line: string)
    requires was < s && s[|s| - 1] == line
    ensures line in s[|was|..]
  {
    assert s[|was|..][|s| - 1 - |was|] == line;
  }

  /** A message that is not lost is shown. */
  lemma MessageShown(cfg: Config, quiet: bool, w: World, errnum: int, msg: Option<string>)
    requires ValidNames(cfg.nm) && !w.exited && !Lost(cfg, quiet, w, errnum, msg)
    ensures Shown(cfg, w, Said(cfg, quiet, w, errnum, msg), errnum, msg)
  {
    MessageLostIff(cfg, quiet, w, errnum, msg);
    SaidInTurn(cfg, quiet, w, errnum, msg);
    if NeedsWarning(cfg.nm, errnum, msg) {
      var first := Delivered(cfg, quiet, w, [WarningLine(cfg.nm, errnum)]);
      DeliveredExits(cfg, quiet, w, WarningLine(cfg.nm, errnum));
      LineShown(cfg, quiet, first, errnum, msg);
      ShownBefore(cfg, w, first, Said(cfg, quiet, w, errnum, msg), errnum, msg);
    } else {
      LineShown(cfg, quiet, w, errnum, msg);
    }
  }

  lemma ShownBefore(cfg: Config, w: World, first: World, v: World, errnum: int, msg: Option<string>)
    requires Grows(w, first) && Grows(first, v) && Shown(cfg, first, v, errnum, msg)
    ensures Shown(cfg, w, v, errnum, msg)
  {
    assert v.journal[|first.journal|..] == v.journal[|w.journal|..][|first.journal| - |w.journal|..];
    assert v.stderr[|first.stderr|..] == v.stderr[|w.stderr|..][|first.stderr| - |w.stderr|..];
  }

  /**
    A truncated message is shown exactly if the send of its warning succeeds: its line can not be mistaken
    for another one if it has 256 characters or more and the server library makes no reports of its own.
   */
  lemma TruncatedShownIff(cfg: Config, quiet: bool, w: World, errnum: int, msg: Option<string>)
    requires ValidNames(cfg.nm) && !w.exited && (cfg.lite || forall k :: cfg.plan(k).reports == [])
    requires NeedsWarning(cfg.nm, errnum, msg) && |JournalLine(cfg.nm, errnum, msg)| >= 2 * ERRMSG_SIZE
    ensures Shown(cfg, w, Said(cfg, quiet, w, errnum, msg), errnum, msg) <==> SendOk(cfg, w.sent)
  {
    if SendOk(cfg, w.sent) {
      MessageLostIff(cfg, quiet, w, errnum, msg);
      MessageShown(cfg, quiet, w, errnum, msg);
    } else {
      var warning := WarningLine(cfg.nm, errnum);
      var v := Delivered(cfg, quiet, w, [warning]);
      SaidInTurn(cfg, quiet, w, errnum, msg);
      WarningIsLast(cfg, quiet, w, warning);
      ShortLines(cfg, cfg.plan(w.sent), errnum, JournalLine(cfg.nm, errnum, msg));
      assert v == Said(cfg, quiet, w, errnum, msg);
    }
  }

  /** All that is printed if the process exits with a line, and the server library reports nothing. */
  lemma WarningIsLast(cfg: Config, quiet: bool, w: World, line: string)
    requires !w.exited && !SendOk(cfg, w.sent) && (cfg.lite || cfg.plan(w.sent).reports == [])
    ensures var a, v := cfg.plan(w.sent), Delivered(cfg, quiet, w, [line]);
            && v.exited && Grows(w, v) && v.journal[|w.journal|..] == Kept(a, [line])
            && v.stderr[|w.stderr|..] == Complaints(cfg, a) + LastWords(cfg, a, [line])
  {
    var a, v := cfg.plan(w.sent), Delivered(cfg, quiet, w, [line]);
    LastWordsIff(cfg, quiet, w, line);
    FailureWords(cfg, quiet, w, line);
    assert v.stderr == w.stderr + (Complaints(cfg, a) + LastWords(cfg, a, [line]));
  }

  lemma ShortLines(cfg: Config, a: Attempt, errnum: int, line: string)
    requires ValidNames(cfg.nm) && (cfg.lite || a.reports == []) && |line| >= 2 * ERRMSG_SIZE
    ensures line !in Kept(a, [WarningLine(cfg.nm, errnum)])
    ensures StderrLine(cfg.nm, 0, Some(line))
            !in Complaints(cfg, a) + LastWords(cfg, a, [WarningLine(cfg.nm, errnum)])
  {
    var warning := WarningLine(cfg.nm, errnum);
    FormedIs(Header(cfg.nm, 0), Warning(Header(cfg.nm, errnum)));
    OneLine(cfg.nm, warning);
    ShortLine(cfg.nm, a.errno, WRITE_ERROR, line);
    ShortLine(cfg.nm, if cfg.lite then 0 else a.errno, Unsent(cfg.lite), line);
    assert StderrLine(cfg.nm, 0, Some(warning)) != StderrLine(cfg.nm, 0, Some(line));
  }

  lemma ShortLine(nm: Names, e: int, text: string, line: string)
    requires ValidNames(nm) && |text| < ERRMSG_SIZE && |line| >= 2 * ERRMSG_SIZE
    ensures StderrLine(nm, e, Some(text)) != StderrLine(nm, 0, Some(line))
  {
    assert |Header(nm, e)| < HEADER_SIZE;
  }

  /**
    A run that loses a message: the stand-alone version can not write its results file and is given a
    message of 600 characters.  It exits without any part of the message in either output.
   */
  lemma LostRun(nm: Names, e: int)
    requires ValidNames(nm)
    ensures var cfg := Config(nm, true, k => Attempt(false, 0, e, [], false));
            Said(cfg, false, World([], [], 0, false), 0, Some(seq(600, i => 'x')))
            == World([], [StderrLine(nm, e, Some(WRITE_ERROR)), StderrLine(nm, 0, Some(UNWRITTEN)),
                          StderrLine(nm, 0, Some(WarningLine(nm, 0)))], 1, true)
  {
    var cfg := Config(nm, true, k => Attempt(false, 0, e, [], false));
    var w, msg := World([], [], 0, false), Some(seq(600, i => 'x'));
    SaidInTurn(cfg, false, w, 0, msg);
    OneLine(nm, WarningLine(nm, 0));
    assert NeedsWarning(nm, 0, msg);
  }
}

/**
  The mutually recursive functions that report errors to the journal and, once that has failed, to the
  standard error output.
 */
module ErrorPath {
  import opened Options
  import opened Journal
  import opened LineBuffer
  import opened MessageForm
  import opened Delivery

  predicate Together(journal: seq<string>, was: seq<string>, nm: Names, errnum: int, msgs: seq<Option<string>>) {
    journal == was + AllWarnings(nm, errnum, msgs, |msgs|) + AllLines(nm, errnum, msgs)
  }

  predicate OneByOne(journal: seq<string>, was: seq<string>, nm: Names, errnum: int, msgs: seq<Option<string>>) {
    was <= journal && EndsWith(journal[|was|..], AllEntries(nm, errnum, msgs, |msgs|))
  }

  /**
    The lines of several messages are in the journal in their order: all together, or one after the
    other when there was no memory to collect them.
   */
  predicate InOrder(journal: seq<string>, was: seq<string>, nm: Names, errnum: int, msgs: seq<Option<string>>) {
    Together(journal, was, nm, errnum, msgs) || OneByOne(journal, was, nm, errnum, msgs)
  }

  /** Then the error number is that of the first line and of its warning, and of no other. */
  ghost predicate NumberedOnce(journal: seq<string>, was: seq<string>, nm: Names, errnum: int,
                               msgs: seq<Option<string>>)
    requires NoneNull(msgs) && msgs != []
  {
    var first, rest := msgs[0], msgs[1..];
    || (was <= journal && EndsWith(journal[|was|..], Entries(nm, errnum, first) + PlainEntries(nm, rest, |rest|)))
    || exists lines :: SentOnce(lines, nm, errnum, msgs)
                       && journal == was + (Warnings(nm, errnum, first) + PlainWarnings(nm, rest, |rest|)) + lines
  }

  lemma InOrderNumbered(journal: seq<string>, was: seq<string>, nm: Names, errnum: int, msgs: seq<Option<string>>)
    requires InOrder(journal, was, nm, errnum, msgs) && NoneNull(msgs) && msgs != []
    ensures NumberedOnce(journal, was, nm, errnum, msgs)
  {
    hide SentOnce, AllLines, AllWarnings, AllEntries, Warnings, Entries, PlainWarnings, PlainEntries, EndsWith;
    NumberSentOnce(nm, errnum, msgs, |msgs|);
    var lines := AllLines(nm, errnum, msgs);
    if journal == was + AllWarnings(nm, errnum, msgs, |msgs|) + lines {
      var warnings := Warnings(nm, errnum, msgs[0]) + PlainWarnings(nm, msgs[1..], |msgs[1..]|);
      assert SentOnce(lines, nm, errnum, msgs) && journal == was + warnings + lines;
    }
  }

  lemma SaidInOrder(cfg: Config, quiet: bool, w: World, errnum: int, msgs: seq<Option<string>>)
    requires |msgs| == 1
    ensures var v := Said(cfg, quiet, w, errnum, msgs[0]);
            && Grows(w, v)
            && (!v.exited ==> OneByOne(v.journal, w.journal, cfg.nm, errnum, msgs)
                              && Together(v.journal, w.journal, cfg.nm, errnum, msgs))
  {
    var v, entries := Said(cfg, quiet, w, errnum, msgs[0]), Entries(cfg.nm, errnum, msgs[0]);
    SaidGrows(cfg, quiet, w, errnum, msgs[0]);
    hide Said, JournalLine, Warnings, EndsWith;
    assert AllEntries(cfg.nm, errnum, msgs, 0) + entries == entries;
    var warnings := Warnings(cfg.nm, errnum, msgs[0]);
    assert AllWarnings(cfg.nm, errnum, msgs, 0) + warnings == warnings;
    assert AllLines(cfg.nm, errnum, msgs) == [JournalLine(cfg.nm, errnum, msgs[0])];
    if !v.exited { EndsInOrder(w.journal, w.journal, v.journal, cfg.nm, errnum, msgs); }
  }

  lemma EndsInOrder(was: seq<string>, mid: seq<string>, journal: seq<string>,
                    nm: Names, errnum: int, msgs: seq<Option<string>>)
    requires was <= mid && journal == mid + AllEntries(nm, errnum, msgs, |msgs|)
    ensures OneByOne(journal, was, nm, errnum, msgs)
  {
    var added, entries := journal[|was|..], AllEntries(nm, errnum, msgs, |msgs|);
    assert added == mid[|was|..] + entries;
    assert added[|added| - |entries|..] == entries;
  }

  /** The loop that collects the lines began in state `was`, or has gone on from the report that led to `base`. */
  predicate CollectsFrom(cfg: Config, quiet: bool, was: World, base: World, refused: nat -> Option<int>) {
    base == if refused(0) == None then was
            else LibSaid(cfg, quiet, was, refused(0).value, Joined(NO_POINTERS, None))
  }

  /** What a round of that loop leads to if it is the last. */
  lemma CollectingOn(cfg: Config, quiet: bool, was: World, base: World, errnum: int, msgs: seq<Option<string>>,
                     refused: nat -> Option<int>, n: nat)
    requires 0 < n <= |msgs| && !base.exited && CollectsFrom(cfg, quiet, was, base, refused)
    requires refused(0) == None ==> forall i :: 0 <= i < n ==> refused(i) == None
    ensures var v := WarnedEach(cfg, quiet, base, errnum, msgs, n);
            && (v.exited ==> v == Collected(cfg, quiet, was, errnum, msgs, refused))
            && (!v.exited && refused(0) == None && refused(n).Some? ==>
                  var line := JournalLine(cfg.nm, ErrnumOf(errnum, n - 1), msgs[n - 1]);
                  && Collected(cfg, quiet, was, errnum, msgs, refused)
                     == LibSaid(cfg, quiet, v, refused(n).value, Joined(NO_STRING, Some(line)))
                  && !HasStorage(refused, |msgs|))
  {
    hide WarnedEach, LibSaid, Collected;
    if refused(0).Some? {
      CollectingWithout(cfg, quiet, was, errnum, msgs, refused, n);
    } else {
      if WarnedEach(cfg, quiet, base, errnum, msgs, n).exited {
        CollectingStops(cfg, quiet, was, errnum, msgs, refused, n);
      }
      if refused(n).Some? { CollectingEnds(cfg, quiet, was, errnum, msgs, refused, n); }
    }
  }

  /** What it leads to in the end. */
  lemma StorageIs(cfg: Config, quiet: bool, was: World, base: World, errnum: int, msgs: seq<Option<string>>,
                  refused: nat -> Option<int>)
    requires !base.exited && CollectsFrom(cfg, quiet, was, base, refused)
    requires refused(0) == None ==> forall i :: 0 <= i <= |msgs| ==> refused(i) == None
    ensures WarnedEach(cfg, quiet, base, errnum, msgs, |msgs|) == Collected(cfg, quiet, was, errnum, msgs, refused)
    ensures HasStorage(refused, |msgs|) <==> refused(0) == None
  {
    hide WarnedEach, LibSaid, Collected;
    if refused(0).Some? {
      CollectingWithout(cfg, quiet, was, errnum, msgs, refused, |msgs|);
    } else {
      CollectingAll(cfg, quiet, was, errnum, msgs, refused);
    }
  }

  class Api {
    const cfg: Config
    var combinedOk: bool
    var inprogress: nat
    var journal: seq<string>
    var stderr: seq<string>
    /** How often output() has been called. */
    var sent: nat
    /** tet_exit() has been called: the process does nothing more. */
    var exited: bool

    constructor (cfg: Config)
      ensures this.cfg == cfg && combinedOk && inprogress == 0 && Now() == World([], [], 0, false)
    {
      this.cfg := cfg;
      combinedOk, inprogress, journal, stderr, sent, exited := true, 0, [], [], 0, false;
    }

    function Now(): World
      reads this
    {
      World(journal, stderr, sent, exited)
    }

    /** Errors of the library go to the standard error output only. */
    predicate Quiet()
      reads this
    {
      inprogress > 0 || !combinedOk
    }

    /** How often a report can still lead to another one. */
    function Rank(): nat
      reads this
    {
      if !combinedOk then 0 else if inprogress > 0 then 1 else 2
    }

    /** tet_merr_stderr() */
    method MerrStderr(errnum: int, msgs: seq<Option<string>>)
      modifies `stderr
      ensures stderr == old(stderr) + StderrLines(cfg.nm, errnum, msgs, |msgs|)
      ensures NoneNull(msgs) ==> PrintedOnce(stderr[|old(stderr)|..], cfg.nm, errnum, msgs)
    {
      if NoneNull(msgs) { NumberPrintedOnce(cfg.nm, errnum, msgs, |msgs|); }
      assert msgs[..|msgs|] == msgs;
      var e := errnum;
      for n := 0 to |msgs|
        invariant e == ErrnumOf(errnum, n)
        invariant stderr == old(stderr) + StderrLines(cfg.nm, errnum, msgs, n)
      {
        if !(msgs[n] == None && e == 0) { stderr := stderr + [StderrLine(cfg.nm, e, msgs[n])]; }
        e := 0;
      }
      assert stderr[|old(stderr)|..] == StderrLines(cfg.nm, errnum, msgs, |msgs|);
    }

    /** output(): the outcome decides what becomes of the lines; the server library may report errors by itself. */
    method Output(lines: seq<string>) returns (rc: int)
      requires ValidNames(cfg.nm) && !exited
      modifies this
      ensures Now() == Tried(cfg, old(Quiet()), old(Now()), lines)
      ensures rc == if Outcome(cfg, old(sent), lines).ok then 0 else -1
      ensures !exited ==> inprogress == old(inprogress)
      ensures !exited ==>
                combinedOk == (old(combinedOk) && (rc == 0 || !(cfg.lite || Outcome(cfg, old(sent), lines).shut)))
      ensures exited ==> !combinedOk
      decreases Rank(), false, false, 5
    {
      hide Said, SentReports;
      var a := Outcome(cfg, sent, lines);
      sent := sent + 1;
      if a.ok {
        journal := journal + lines;
        return 0;
      }
      journal := journal + Kept(a, lines);
      rc := -1;
      TriedFails(cfg, old(Quiet()), old(Now()), lines);
      if cfg.lite {
        combinedOk := false;
        LibError(a.errno, WRITE_ERROR, None);
      } else {
        XresdReports(a);
        if exited { return; }
        if a.shut { combinedOk := false; }
      }
    }

    /** The errors that tet_xdxresv() and the functions below it report. */
    method XresdReports(a: Attempt)
      requires ValidNames(cfg.nm) && !exited
      modifies this
      ensures Now() == Reported(cfg, old(Quiet()), old(Now()), a.reports, |a.reports|)
      ensures !exited ==> inprogress == old(inprogress) && combinedOk == old(combinedOk)
      ensures exited ==> !combinedOk
      decreases Rank(), false, false, 4
    {
      ghost var was, quiet := Now(), Quiet();
      hide SentReports;
      FirstReport(cfg, quiet, was, a.reports);
      for i := 0 to |a.reports|
        invariant !exited && inprogress == old(inprogress) && combinedOk == old(combinedOk)
        invariant Now() == Reported(cfg, quiet, was, a.reports, i)
      {
        XresdReport(a, i, was);
        if exited { return; }
      }
    }

    /** One of them. */
    method XresdReport(a: Attempt, i: nat, ghost was: World)
      requires ValidNames(cfg.nm) && !exited && !was.exited && i < |a.reports|
      requires Now() == Reported(cfg, Quiet(), was, a.reports, i)
      modifies this
      ensures Now() == Reported(cfg, old(Quiet()), was, a.reports, if exited then |a.reports| else i + 1)
      ensures !exited ==> inprogress == old(inprogress) && combinedOk == old(combinedOk)
      ensures exited ==> !combinedOk
      decreases Rank(), false, false, 3
    {
      ghost var quiet := Quiet();
      hide SentReports, Said;
      OneMoreReport(cfg, quiet, was, a.reports, i);
      LibError(0, a.reports[i], None);
      if exited { ReportsStop(cfg, quiet, was, a.reports, i + 1); }
    }

    /** tet_routput(): the lines are in the journal, or the process exits. */
    method Routput(lines: seq<string>)
      requires ValidNames(cfg.nm) && combinedOk && !exited
      modifies this
      ensures Now() == Delivered(cfg, old(inprogress) > 0, old(Now()), lines)
      ensures !exited ==> combinedOk && inprogress == old(inprogress)
      ensures exited ==> !combinedOk
      decreases Rank(), false, false, 6
    {
      var errno := Outcome(cfg, sent, lines).errno;
      var rc := Output(lines);
      if rc < 0 {
        if exited { return; }
        LastWordsPrinted(cfg, old(inprogress) > 0, old(Now()), lines);
        combinedOk := false;
        // In the stand-alone version the report made by output() has left errno at zero.
        TetError(if cfg.lite then 0 else errno, Unsent(cfg.lite));
        Merror(0, AsMessages(lines), _ => None);
        exited := true;
      }
    }

    /** tet_dtcmerror(), without file name and line number: a nested call goes to the standard error output. */
    method LibError(errnum: int, s1: CText, s2: Option<string>)
      requires ValidNames(cfg.nm) && !exited && NUL !in MessageText(s2)
      modifies this
      ensures Now() == LibSaid(cfg, old(Quiet()), old(Now()), errnum, Joined(s1, s2))
      ensures old(Quiet()) ==> !exited && journal == old(journal)
      ensures old(Quiet()) ==>
                stderr == old(stderr) + [cfg.nm.pname + ": " + (if s2 == None || s2.value == "" then s1
                                                                else s1 + " " + s2.value) + cfg.nm.errtext(errnum)]
      ensures !exited ==> combinedOk == old(combinedOk) && inprogress == old(inprogress)
      ensures exited ==> !combinedOk
      decreases if Quiet() then 0 else 1, !Quiet(), !Quiet(), if Quiet() then 2 else 13
    {
      var msg := Joined(s1, s2);
      var combinedSave, nested := combinedOk, inprogress > 0;
      if nested { combinedOk := false; }
      inprogress := inprogress + 1;
      OneMessage(cfg.nm, errnum, msg);
      TetError(errnum, msg);
      if exited { return; }
      inprogress := inprogress - 1;
      if inprogress > 0 { combinedOk := combinedSave; }
    }

    /** tet_error() */
    method TetError(errnum: int, msg: string)
      requires ValidNames(cfg.nm) && !exited && NUL !in msg
      modifies this
      ensures Reports(old(combinedOk), old(inprogress) > 0, old(Now()), errnum, Some(msg))
      ensures !exited ==> combinedOk == old(combinedOk) && inprogress == old(inprogress)
      decreases Rank(), false, combinedOk && Long(Some(msg)), if combinedOk then 12 else 1
    {
      Merror(errnum, [Some(msg)], _ => None);
    }

    /** What has become of one message. */
    predicate Reports(wasOk: bool, quiet: bool, was: World, errnum: int, msg: Option<string>)
      reads this
    {
      && (exited ==> !combinedOk)
      && Now() == if wasOk then Said(cfg, quiet, was, errnum, msg)
                  else Printed(cfg, was, errnum, [msg])
    }

    /** tet_merror(), given with which error numbers malloc() refuses the memory for a list of messages */
    method Merror(errnum: int, msgs: seq<Option<string>>, refused: nat -> Option<int>)
      requires ValidNames(cfg.nm) && !exited && (combinedOk ==> NulFree(msgs))
      requires combinedOk && |msgs| != 1 ==> forall i :: 0 <= i < |msgs| ==> msgs[i].Some?
      modifies this
      ensures |msgs| == 1 ==> Reports(old(combinedOk), old(inprogress) > 0, old(Now()), errnum, msgs[0])
      ensures old(combinedOk) && |msgs| != 1 ==>
                Now() == SaidTogether(cfg, old(inprogress) > 0, old(Now()), errnum, msgs, refused)
      ensures !exited ==> combinedOk == old(combinedOk) && inprogress == old(inprogress)
      ensures exited ==> old(combinedOk) && !combinedOk
      ensures !old(combinedOk) ==> Now() == Printed(cfg, old(Now()), errnum, msgs)
      ensures Grows(old(Now()), Now())
      ensures old(combinedOk) && !exited ==> InOrder(journal, old(journal), cfg.nm, errnum, msgs)
      ensures old(combinedOk) && !exited && HasStorage(refused, |msgs|) ==>
                Together(journal, old(journal), cfg.nm, errnum, msgs)
      ensures old(combinedOk) && !exited && !HasStorage(refused, |msgs|) ==>
                OneByOne(journal, old(journal), cfg.nm, errnum, msgs)
      ensures old(combinedOk) && !exited && NoneNull(msgs) && msgs != [] ==>
                NumberedOnce(journal, old(journal), cfg.nm, errnum, msgs)
      ensures !old(combinedOk) && NoneNull(msgs) ==> PrintedOnce(stderr[|old(stderr)|..], cfg.nm, errnum, msgs)
      decreases Rank(), |msgs| != 1, combinedOk && |msgs| == 1 && Long(msgs[0]), if combinedOk then 11 else 0
    {
      if |msgs| == 1 { assert msgs == [msgs[0]]; }
      if !combinedOk {
        MerrStderr(errnum, msgs);
      } else {
        MerrStdchan(errnum, msgs, refused);
        if !exited && NoneNull(msgs) && msgs != [] { InOrderNumbered(journal, old(journal), cfg.nm, errnum, msgs); }
      }
    }

    /** tet_merr_stdchan() */
    method MerrStdchan(errnum: int, msgs: seq<Option<string>>, refused: nat -> Option<int>)
      requires ValidNames(cfg.nm) && combinedOk && !exited && NulFree(msgs)
      requires |msgs| != 1 ==> forall i :: 0 <= i < |msgs| ==> msgs[i].Some?
      modifies this
      ensures |msgs| == 1 ==> Now() == Said(cfg, old(inprogress) > 0, old(Now()), errnum, msgs[0])
      ensures |msgs| != 1 ==> Now() == SaidTogether(cfg, old(inprogress) > 0, old(Now()), errnum, msgs, refused)
      ensures exited <==> !combinedOk
      ensures !exited ==> inprogress == old(inprogress)
      ensures Grows(old(Now()), Now())
      ensures !exited ==> InOrder(journal, old(journal), cfg.nm, errnum, msgs)
      ensures !exited && HasStorage(refused, |msgs|) ==> Together(journal, old(journal), cfg.nm, errnum, msgs)
      ensures !exited && !HasStorage(refused, |msgs|) ==> OneByOne(journal, old(journal), cfg.nm, errnum, msgs)
      decreases Rank(), |msgs| != 1, |msgs| == 1 && Long(msgs[0]), 10
    {
      if |msgs| == 1 {
        MerrSc2(errnum, msgs[0]);
        SaidInOrder(cfg, old(inprogress) > 0, old(Now()), errnum, msgs);
        return;
      }
      var lines, errors := CollectLines(errnum, msgs, refused);
      if exited { return; }
      if !errors {
        CollectingAll(cfg, inprogress > 0, old(Now()), errnum, msgs, refused);
        WarnedEachGrows(cfg, inprogress > 0, old(Now()), errnum, msgs, |msgs|);
        DeliveredGrows(cfg, inprogress > 0, Now(), lines);
        DeliveredAll(cfg, inprogress > 0, Now(), lines);
        Routput(lines);
      } else {
        ghost var mid := journal;
        SaidEachGrows(cfg, inprogress > 0, Now(), errnum, msgs, |msgs|);
        PrintEach(errnum, msgs);
        if !exited { EndsInOrder(old(journal), mid, journal, cfg.nm, errnum, msgs); }
      }
    }

    /** The first loop of tet_merr_stdchan(): format the lines and store copies of them. */
    method CollectLines(errnum: int, msgs: seq<Option<string>>, refused: nat -> Option<int>)
      returns (lines: seq<string>, errors: bool)
      requires ValidNames(cfg.nm) && combinedOk && !exited && NulFree(msgs)
      requires |msgs| != 1 && forall i :: 0 <= i < |msgs| ==> msgs[i].Some?
      modifies this
      ensures exited <==> !combinedOk
      ensures !exited ==> inprogress == old(inprogress)
      ensures Grows(old(Now()), Now())
      ensures Now() == Collected(cfg, old(inprogress) > 0, old(Now()), errnum, msgs, refused)
      ensures !exited ==> (errors <==> !HasStorage(refused, |msgs|))
      ensures !exited && !errors ==> lines == AllLines(cfg.nm, errnum, msgs)
      decreases Rank(), true, false, 9
    {
      hide Warned, WarnedEach, LibSaid, Collected, HasStorage;
      var outbuf := new char[TET_JNL_LEN];
      ghost var was, quiet := Now(), inprogress > 0;
      lines, errors := [], refused(0).Some?;
      if errors {
        CollectingWithout(cfg, quiet, was, errnum, msgs, refused, 0);
        NoMemory(refused(0).value, NO_POINTERS, None, was);
        if exited { return; }
      }
      ghost var base := Now();
      NoneWarned(cfg, quiet, base, errnum, msgs);
      for n := 0 to |msgs|
        invariant combinedOk && !exited && inprogress == old(inprogress) && errors == refused(0).Some?
        invariant Grows(was, Now()) && Now() == WarnedEach(cfg, quiet, base, errnum, msgs, n)
        invariant !errors ==> lines == AllLines(cfg.nm, errnum, msgs)[..n]
        invariant !errors ==> forall i :: 0 <= i <= n ==> refused(i) == None
      {
        var line := CollectNext(errnum, msgs, n, outbuf, was, base);
        CollectingOn(cfg, quiet, was, base, errnum, msgs, refused, n + 1);
        if exited { return; }
        if !errors {
          errors := StrStore(line, refused(n + 1), was);
          if errors { return; }
          lines := lines + [line];
        }
      }
      StorageIs(cfg, quiet, was, base, errnum, msgs, refused);
    }

    /** One round of the loop: the line is formed, and the warning about it reported. */
    method CollectNext(errnum: int, msgs: seq<Option<string>>, n: nat, outbuf: array<char>, ghost was: World,
                       ghost base: World)
      returns (line: string)
      requires ValidNames(cfg.nm) && combinedOk && !exited && NulFree(msgs) && outbuf.Length == TET_JNL_LEN
      requires n < |msgs| && Grows(was, Now())
      modifies this, outbuf
      ensures exited <==> !combinedOk
      ensures !exited ==> inprogress == old(inprogress)
      ensures Grows(was, Now())
      ensures line == JournalLine(cfg.nm, ErrnumOf(errnum, n), msgs[n]) && NUL !in line
      ensures old(Now()) == WarnedEach(cfg, old(inprogress) > 0, base, errnum, msgs, n) ==>
                Now() == WarnedEach(cfg, old(inprogress) > 0, base, errnum, msgs, n + 1)
      decreases Rank(), true, false, 8
    {
      WarnedGrows(cfg, inprogress > 0, Now(), ErrnumOf(errnum, n), msgs[n]);
      line := MerrSc3(ErrnumOf(errnum, n), msgs[n], outbuf);
      GrowsOn(was, old(Now()), Now());
    }

    /** tet_strstore(), which reports its failure itself */
    method StrStore(line: string, refused: Option<int>, ghost was: World) returns (failed: bool)
      requires ValidNames(cfg.nm) && combinedOk && !exited && NUL !in line && Grows(was, Now())
      modifies this
      ensures failed == refused.Some?
      ensures Now() == if refused == None then old(Now())
                       else LibSaid(cfg, old(Quiet()), old(Now()), refused.value, Joined(NO_STRING, Some(line)))
      ensures Grows(was, Now())
      ensures exited <==> !combinedOk
      ensures !exited ==> inprogress == old(inprogress)
      decreases if Quiet() then 0 else 1, !Quiet(), !Quiet(), if Quiet() then 5 else 15
    {
      failed := refused.Some?;
      if failed { NoMemory(refused.value, NO_STRING, Some(line), was); }
    }

    /** A failure to get memory is reported. */
    method NoMemory(errnum: int, s1: CText, s2: Option<string>, ghost was: World)
      requires ValidNames(cfg.nm) && combinedOk && !exited && NUL !in MessageText(s2) && Grows(was, Now())
      modifies this
      ensures Now() == LibSaid(cfg, old(Quiet()), old(Now()), errnum, Joined(s1, s2))
      ensures Grows(was, Now())
      ensures exited <==> !combinedOk
      ensures !exited ==> inprogress == old(inprogress)
      decreases if Quiet() then 0 else 1, !Quiet(), !Quiet(), if Quiet() then 4 else 14
    {
      if !Quiet() { SaidGrows(cfg, true, Now(), errnum, Some(Joined(s1, s2))); }
      LibError(errnum, s1, s2);
      GrowsOn(was, old(Now()), Now());
    }

    /** The last loop of tet_merr_stdchan(): without memory, print each line individually. */
    method PrintEach(errnum: int, msgs: seq<Option<string>>)
      requires ValidNames(cfg.nm) && combinedOk && !exited && NulFree(msgs) && |msgs| != 1
      modifies this
      ensures Now() == SaidEach(cfg, old(inprogress) > 0, old(Now()), errnum, msgs, |msgs|)
      ensures exited <==> !combinedOk
      ensures !exited ==> inprogress == old(inprogress)
      decreases Rank(), true, false, 9
    {
      ghost var was := Now();
      hide Said;
      for n := 0 to |msgs|
        invariant combinedOk && !exited && inprogress == old(inprogress)
        invariant Now() == SaidEach(cfg, inprogress > 0, was, errnum, msgs, n)
      {
        PrintNext(errnum, msgs, n, was);
        if exited { return; }
      }
    }

    /** One round of the loop. */
    method PrintNext(errnum: int, msgs: seq<Option<string>>, n: nat, ghost was: World)
      requires ValidNames(cfg.nm) && combinedOk && !exited && NulFree(msgs) && n < |msgs|
      requires Now() == SaidEach(cfg, inprogress > 0, was, errnum, msgs, n)
      modifies this
      ensures exited <==> !combinedOk
      ensures !exited ==> inprogress == old(inprogress)
      ensures Now() == SaidEach(cfg, old(inprogress) > 0, was, errnum, msgs, if exited then |msgs| else n + 1)
      decreases Rank(), true, false, 8
    {
      MerrSc2(ErrnumOf(errnum, n), msgs[n]);
      if exited { SaidEachStops(cfg, old(inprogress) > 0, was, errnum, msgs, n + 1, |msgs|); }
    }

    /** tet_merr_sc2() */
    method MerrSc2(errnum: int, msg: Option<string>)
      requires ValidNames(cfg.nm) && combinedOk && !exited && NUL !in MessageText(msg)
      modifies this
      ensures Now() == Said(cfg, old(inprogress) > 0, old(Now()), errnum, msg)
      ensures exited <==> !combinedOk
      ensures !exited ==> inprogress == old(inprogress)
      decreases Rank(), false, Long(msg), 9
    {
      var outbuf := new char[TET_JNL_LEN];
      SaidByWarnings(cfg, inprogress > 0, Now(), errnum, msg);
      var line := MerrSc3(errnum, msg, outbuf);
      if exited { return; }
      Routput([line]);
    }

    /** tet_merr_sc3() */
    method MerrSc3(errnum: int, msg: Option<string>, outbuf: array<char>) returns (line: string)
      requires ValidNames(cfg.nm) && combinedOk && !exited && NUL !in MessageText(msg) && outbuf.Length == TET_JNL_LEN
      modifies this, outbuf
      ensures line == JournalLine(cfg.nm, errnum, msg) && NUL !in line
      ensures Now() == Warned(cfg, old(inprogress) > 0, old(Now()), errnum, msg)
      ensures exited <==> !combinedOk
      ensures !exited ==> inprogress == old(inprogress)
      decreases Rank(), false, Long(msg), 8
    {
      line := MsgForm(errnum, msg, outbuf);
    }

    /** tet_msgform() on the header of an error message */
    method MsgForm(errnum: int, msg: Option<string>, outbuf: array<char>) returns (line: string)
      requires ValidNames(cfg.nm) && combinedOk && !exited && NUL !in MessageText(msg) && outbuf.Length == TET_JNL_LEN
      modifies this, outbuf
      ensures line == JournalLine(cfg.nm, errnum, msg) && NUL !in line
      ensures Now() == Warned(cfg, old(inprogress) > 0, old(Now()), errnum, msg)
      ensures exited <==> !combinedOk
      ensures !exited ==> inprogress == old(inprogress)
      decreases Rank(), false, Long(msg), 7
    {
      var header := Header(cfg.nm, errnum);
      HeaderStarts(cfg.nm, errnum);
      var truncated := FormLine(header, MessageText(msg), outbuf);
      line := ReadString(outbuf, 0, Formed(header, MessageText(msg)));
      if truncated {
        WarningSaid(cfg, inprogress > 0, Now(), errnum, msg);
        TetError(0, Warning(header));
      }
    }
  }
}

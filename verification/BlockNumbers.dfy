/**
  Journal numbering: the context, block and sequence numbers with which tet_setcontext(),
  tet_setblock() and the info-line writers stamp each journal line.  Every operation runs under the
  nested API lock, so operations of different threads interleave as whole calls.  Numbers are
  unbounded here; the program keeps them in longs.
 */
module BlockNumbers {
  type Tid = nat

  datatype Stamp = Stamp(epoch: nat, context: int, block: int, sequence: int)
  datatype Line = Line(stamp: Stamp, writer: Tid)

  /** `epoch` counts the calls of tet_tpstart(): each starts the journal of one test purpose. */
  datatype State = State(
    epoch: nat,
    context: int,
    nextBlock: int,
    block: map<Tid, int>,       // thread-specific data, absent until first used
    sequence: map<Tid, int>,
    lines: seq<Line>)

  datatype Op =
    | StartThread(t: Tid)       // a new thread, possibly with a reused id, without thread data
    | SetBlock(t: Tid)
    | SetContext(t: Tid)
    | Write(t: Tid, n: nat)     // n journal lines in one call
    | EndThread(t: Tid)         // its thread data goes with it
    | StartTest(t: Tid)         // tet_tpstart(): other threads, if there are any, keep their numbers
    | StartChild(t: Tid)        // what tet_fork() does in the child before it calls the child function
    | Exec                      // a new program in the same process: the thread data is gone

  function Block(s: State, t: Tid): int {
    if t in s.block then s.block[t] else 0
  }

  function Sequence(s: State, t: Tid): int {
    if t in s.sequence then s.sequence[t] else 0
  }

  function NextStamp(s: State, t: Tid): Stamp {
    Stamp(s.epoch, s.context, Block(s, t), Sequence(s, t))
  }

  function ContextSet(s: State, t: Tid, pid: int): State {
    if s.context != pid then s.(context := pid, sequence := s.sequence[t := 1]) else s
  }

  function LineWritten(s: State, t: Tid): State {
    s.(lines := s.lines + [Line(NextStamp(s, t), t)], sequence := s.sequence[t := Sequence(s, t) + 1])
  }

  function LinesWritten(s: State, t: Tid, n: nat): State {
    if n == 0 then s else LineWritten(LinesWritten(s, t, n - 1), t)
  }

  function Do(s: State, op: Op, pid: int): State {
    match op
    case StartThread(t) => s.(block := s.block - {t}, sequence := s.sequence - {t})
    case EndThread(t) => s.(block := s.block - {t}, sequence := s.sequence - {t})
    case SetBlock(t) =>
      s.(nextBlock := s.nextBlock + 1, block := s.block[t := s.nextBlock + 1], sequence := s.sequence[t := 1])
    case SetContext(t) => ContextSet(s, t, pid)
    case Write(t, n) =>
      if n == 0 then s
      else LinesWritten(if s.context == 0 then ContextSet(s, t, pid) else s, t, n)
    case StartTest(t) =>
      s.(epoch := s.epoch + 1, nextBlock := 1, block := s.block[t := 1], sequence := s.sequence[t := 1])
    case StartChild(t) => State(s.epoch, pid, 1, map[t := 1], map[t := 1], s.lines)
    case Exec => State(s.epoch, s.context, s.nextBlock, map[], map[], s.lines)
  }

  /**
    Each writer has called tet_setblock(), directly or by being started by tet_pthread_create(), and
    a child sets its numbers before it writes anything.
   */
  predicate Allowed(s: State, op: Op) {
    && (op.Write? ==> Block(s, op.t) > 0)
    && (op.StartChild? ==> s.lines == [])
  }

  /** Threads that have set a block have different ones, not above the last one given out, and number from 1. */
  predicate NumbersOk(s: State) {
    && s.nextBlock >= 0
    && (forall t :: t in s.block ==> 0 <= s.block[t] <= s.nextBlock && (s.block[t] > 0 ==> Sequence(s, t) >= 1))
    && (forall t, u :: t in s.block && u in s.block && t != u && s.block[t] == s.block[u] ==> s.block[t] == 0)
  }

  /**
    A process has written nothing yet.  After a fork or an exec it inherits its parent's context and
    block numbers, and after a fork its threads their thread data as well.
   */
  predicate Init(s: State, pid: int) {
    pid != 0 && s.lines == [] && NumbersOk(s)
  }

  /** Calls of one process, one after the other, from the state s on. */
  ghost predicate Continues(states: seq<State>, ops: seq<Op>, s: State, pid: int) {
    && |states| == |ops| + 1
    && states[0] == s
    && forall k {:trigger ops[k]} :: 0 <= k < |ops| ==>
         Allowed(states[k], ops[k]) && states[k + 1] == Do(states[k], ops[k], pid)
  }

  /** A finite run of one process: the states visited and the calls between them. */
  ghost predicate IsRun(states: seq<State>, ops: seq<Op>, pid: int) {
    |states| > 0 && Init(states[0], pid) && Continues(states, ops, states[0], pid)
  }

  // ---------------------------------------------------------------- stamps

  /** No thread but t has a block. */
  predicate Alone(s: State, t: Tid) {
    forall u :: u in s.block && u != t ==> s.block[u] == 0
  }

  /** Test purposes are started only when no other thread has a block. */
  predicate Clean(s: State, op: Op) {
    op.StartTest? ==> Alone(s, op.t)
  }

  /** What holds in every state, whoever is left over from earlier test purposes. */
  ghost predicate Base(s: State, pid: int) {
    && pid != 0 && s.nextBlock >= 0 && (s.context == 0 ==> s.lines == [])
    && (forall t :: t in s.block ==> 0 <= s.block[t] && (s.block[t] > 0 ==> Sequence(s, t) >= 1))
    && (forall l :: l in s.lines ==> l.stamp.epoch <= s.epoch && l.stamp.context != 0)
    && (forall l :: l in s.lines && s.context != pid ==> l.stamp.context != pid)
  }

  predicate Before(b1: int, q1: int, b2: int, q2: int) {
    b1 < b2 || (b1 == b2 && q1 < q2)
  }

  predicate Current(s: State, l: Line) {
    l.stamp.epoch == s.epoch && l.stamp.context == s.context
  }

  /** Blocks belong to one thread each, and a line's numbers have been passed by the thread that owns its block. */
  ghost predicate Inv(s: State, pid: int) {
    && Base(s, pid) && NumbersOk(s)
    && (forall l :: l in s.lines && Current(s, l) ==> LineInv(s, l))
    && (forall i, j :: 0 <= i < j < |s.lines| && s.lines[i].stamp.epoch == s.epoch ==>
          s.lines[i].stamp != s.lines[j].stamp && InOrder(s.lines[i], s.lines[j]))
  }

  ghost predicate LineInv(s: State, l: Line) {
    && 0 < l.stamp.block <= s.nextBlock
    && (forall t :: t in s.block && s.block[t] == l.stamp.block ==> l.stamp.sequence < Sequence(s, t))
    && (Block(s, l.writer) > 0 ==>
          Before(l.stamp.block, l.stamp.sequence, Block(s, l.writer), Sequence(s, l.writer)))
  }

  /** Lines of one thread, in one test purpose and context, are numbered upwards. */
  predicate InOrder(k: Line, l: Line) {
    k.writer == l.writer && k.stamp.epoch == l.stamp.epoch && k.stamp.context == l.stamp.context ==>
      Before(k.stamp.block, k.stamp.sequence, l.stamp.block, l.stamp.sequence)
  }

  lemma LineKept(s: State, t: Tid, pid: int)
    requires Inv(s, pid) && Block(s, t) > 0 && s.context != 0
    ensures Inv(LineWritten(s, t), pid)
    ensures Block(LineWritten(s, t), t) == Block(s, t) && LineWritten(s, t).context == s.context
  {
    var s' := LineWritten(s, t);
    var line := Line(NextStamp(s, t), t);
    assert forall l :: l in s'.lines <==> l in s.lines || l == line;
    forall l | l in s'.lines && Current(s', l) ensures LineInv(s', l) {
      if l in s.lines { assert LineInv(s, l); }
    }
    forall i, j | 0 <= i < j < |s'.lines| && s'.lines[i].stamp.epoch == s'.epoch
      ensures s'.lines[i].stamp != s'.lines[j].stamp && InOrder(s'.lines[i], s'.lines[j])
    {
      assert s'.lines[i] == s.lines[i] && s.lines[i] in s.lines;
      if j < |s.lines| {
        assert InOrder(s.lines[i], s.lines[j]);
      } else if Current(s, s.lines[i]) {
        assert LineInv(s, s.lines[i]);
      }
    }
  }

  lemma {:induction false} LinesKept(s: State, t: Tid, n: nat, pid: int)
    requires Inv(s, pid) && Block(s, t) > 0 && s.context != 0
    ensures var s' := LinesWritten(s, t, n);
            Inv(s', pid) && Block(s', t) == Block(s, t) && s'.context == s.context
  {
    if n > 0 {
      LinesKept(s, t, n - 1, pid);
      LineKept(LinesWritten(s, t, n - 1), t, pid);
    }
  }

  lemma ContextKept(s: State, t: Tid, pid: int)
    requires Inv(s, pid)
    ensures Inv(ContextSet(s, t, pid), pid) && ContextSet(s, t, pid).context == pid
  {
    var s' := ContextSet(s, t, pid);
    forall l | l in s'.lines && Current(s', l) ensures LineInv(s', l) {
      assert s.context == pid && LineInv(s, l);
    }
  }

  lemma BlockKept(s: State, op: Op, pid: int)
    requires Inv(s, pid) && (op.StartThread? || op.EndThread? || op.SetBlock? || op.Exec?)
    ensures Inv(Do(s, op, pid), pid)
  {
    var s' := Do(s, op, pid);
    BlocksKept(s, op, pid);
    forall l | l in s'.lines && Current(s', l) ensures LineInv(s', l) { LineStaysPassed(s, op, l, pid); }
  }

  lemma LineStaysPassed(s: State, op: Op, l: Line, pid: int)
    requires LineInv(s, l) && NumbersOk(s) && (op.StartThread? || op.EndThread? || op.SetBlock? || op.Exec?)
    ensures LineInv(Do(s, op, pid), l)
  {
  }

  lemma BlocksKept(s: State, op: Op, pid: int)
    requires Base(s, pid) && NumbersOk(s) && (op.StartThread? || op.EndThread? || op.SetBlock? || op.Exec?)
    ensures Base(Do(s, op, pid), pid) && NumbersOk(Do(s, op, pid))
  {
  }

  /** Whatever went before, a test purpose that one thread starts alone begins in order. */
  lemma StartsInOrder(s: State, t: Tid, pid: int)
    requires Base(s, pid) && Alone(s, t)
    ensures Inv(Do(s, StartTest(t), pid), pid)
  {
    var s' := Do(s, StartTest(t), pid);
    assert forall l :: l in s'.lines ==> l.stamp.epoch < s'.epoch;
  }

  lemma InvStep(s: State, op: Op, pid: int)
    requires Inv(s, pid) && Allowed(s, op) && Clean(s, op)
    ensures Inv(Do(s, op, pid), pid)
  {
    match op
    case SetContext(t) => ContextKept(s, t, pid);
    case Write(t, n) =>
      if s.context == 0 { ContextKept(s, t, pid); }
      LinesKept(if s.context == 0 then ContextSet(s, t, pid) else s, t, n, pid);
    case StartTest(t) => StartsInOrder(s, t, pid);
    case StartChild(t) =>
    case _ => BlockKept(s, op, pid);
  }

  lemma {:induction false} LinesBase(s: State, t: Tid, n: nat, pid: int)
    requires Base(s, pid) && s.context != 0
    ensures Base(LinesWritten(s, t, n), pid) && LinesWritten(s, t, n).context == s.context
  {
    if n > 0 {
      LinesBase(s, t, n - 1, pid);
      LineBase(LinesWritten(s, t, n - 1), t, pid);
    }
  }

  lemma LineBase(s: State, t: Tid, pid: int)
    requires Base(s, pid) && s.context != 0
    ensures Base(LineWritten(s, t), pid)
  {
    var s' := LineWritten(s, t);
    assert forall l :: l in s'.lines ==> l in s.lines || l == Line(NextStamp(s, t), t);
  }

  lemma BaseStep(s: State, op: Op, pid: int)
    requires Base(s, pid) && Allowed(s, op)
    ensures Base(Do(s, op, pid), pid)
  {
    if op.Write? && op.n > 0 {
      LinesBase(if s.context == 0 then ContextSet(s, op.t, pid) else s, op.t, op.n, pid);
    }
  }

  lemma {:induction false} BaseHolds(states: seq<State>, ops: seq<Op>, pid: int, n: nat)
    requires IsRun(states, ops, pid) && n < |states|
    ensures Base(states[n], pid)
  {
    if n > 0 {
      BaseHolds(states, ops, pid, n - 1);
      BaseStep(states[n - 1], ops[n - 1], pid);
    }
  }

  /** The test purpose of state n was started by a thread that was alone. */
  predicate StartedClean(states: seq<State>, ops: seq<Op>, n: nat)
    requires n <= |ops| && |states| == |ops| + 1
  {
    n == 0 || (if ops[n - 1].StartTest? then Alone(states[n - 1], ops[n - 1].t) else StartedClean(states, ops, n - 1))
  }

  lemma {:induction false} InvHolds(states: seq<State>, ops: seq<Op>, pid: int, n: nat)
    requires IsRun(states, ops, pid) && n < |states| && StartedClean(states, ops, n)
    ensures Inv(states[n], pid)
  {
    if n > 0 {
      var s, op := states[n - 1], ops[n - 1];
      assert Allowed(s, op) && states[n] == Do(s, op, pid);
      if op.StartTest? {
        BaseHolds(states, ops, pid, n - 1);
        StartsInOrder(s, op.t, pid);
      } else {
        InvHolds(states, ops, pid, n - 1);
        InvStep(s, op, pid);
      }
    }
  }

  /** The test purpose e, if it was started in this run, was started by a thread that was alone. */
  predicate EpochClean(states: seq<State>, ops: seq<Op>, e: nat)
    requires |states| == |ops| + 1
  {
    forall k {:trigger ops[k]} :: 0 <= k < |ops| && ops[k].StartTest? && states[k + 1].epoch == e ==>
      Alone(states[k], ops[k].t)
  }

  lemma {:induction false} CleanThen(states: seq<State>, ops: seq<Op>, pid: int, n: nat)
    requires IsRun(states, ops, pid) && n < |states| && EpochClean(states, ops, states[n].epoch)
    ensures StartedClean(states, ops, n)
  {
    if n > 0 {
      var s, op := states[n - 1], ops[n - 1];
      assert states[n] == Do(s, op, pid);
      if !op.StartTest? {
        LinesAdded(s, op, pid);
        CleanThen(states, ops, pid, n - 1);
      }
    }
  }

  /** Lines are only added, and belong to the test purpose in which they are written. */
  lemma LinesAdded(s: State, op: Op, pid: int)
    ensures var s' := Do(s, op, pid);
            && s.lines <= s'.lines && (op.StartTest? <==> s'.epoch != s.epoch) && s.epoch <= s'.epoch
            && forall i :: |s.lines| <= i < |s'.lines| ==> s'.lines[i].stamp.epoch == s.epoch
  {
    if op.Write? { LinesKeepContext(if s.context == 0 then ContextSet(s, op.t, pid) else s, op.t, op.n); }
  }

  lemma {:induction false} LinesKeepContext(s: State, t: Tid, n: nat)
    ensures LinesWritten(s, t, n).context == s.context && LinesWritten(s, t, n).epoch == s.epoch
    ensures s.lines <= LinesWritten(s, t, n).lines
    ensures forall i :: |s.lines| <= i < |LinesWritten(s, t, n).lines| ==>
              LinesWritten(s, t, n).lines[i].stamp.epoch == s.epoch
  {
    if n > 0 { LinesKeepContext(s, t, n - 1); }
  }

  /** The last state of the test purpose of line i has all the lines of that test purpose. */
  lemma {:induction false} LastOfEpoch(states: seq<State>, ops: seq<Op>, pid: int, n: nat, i: nat) returns (m: nat)
    requires IsRun(states, ops, pid) && n < |states| && i < |states[n].lines|
    ensures m <= n && states[m].lines <= states[n].lines && states[m].epoch == states[n].lines[i].stamp.epoch
    ensures forall j :: 0 <= j < |states[n].lines| && states[n].lines[j].stamp.epoch == states[m].epoch ==>
              j < |states[m].lines|
  {
    if states[n].lines[i].stamp.epoch == states[n].epoch { return n; }
    BaseHolds(states, ops, pid, n);
    assert n > 0 && states[n] == Do(states[n - 1], ops[n - 1], pid);
    LinesAdded(states[n - 1], ops[n - 1], pid);
    m := LastOfEpoch(states, ops, pid, n - 1, i);
  }

  /**
    No two journal lines carry the same stamp, whichever threads wrote them, if their test purpose was
    started by a thread that was alone.
   */
  lemma StampsUnique(states: seq<State>, ops: seq<Op>, pid: int, n: nat, i: nat, j: nat)
    requires IsRun(states, ops, pid) && n < |states| && i < j < |states[n].lines|
    requires EpochClean(states, ops, states[n].lines[i].stamp.epoch)
    ensures states[n].lines[i].stamp != states[n].lines[j].stamp
  {
    var m := LastOfEpoch(states, ops, pid, n, i);
    CleanThen(states, ops, pid, m);
    InvHolds(states, ops, pid, m);
    if j < |states[m].lines| { assert states[m].lines[i].stamp != states[m].lines[j].stamp; }
  }

  /** Within one such test purpose and one context, each thread's (block, sequence) pairs strictly increase. */
  lemma StampsIncrease(states: seq<State>, ops: seq<Op>, pid: int, n: nat, i: nat, j: nat)
    requires IsRun(states, ops, pid) && n < |states| && i < j < |states[n].lines|
    requires EpochClean(states, ops, states[n].lines[i].stamp.epoch)
    ensures InOrder(states[n].lines[i], states[n].lines[j])
  {
    var m := LastOfEpoch(states, ops, pid, n, i);
    CleanThen(states, ops, pid, m);
    InvHolds(states, ops, pid, m);
    if j < |states[m].lines| { assert InOrder(states[m].lines[i], states[m].lines[j]); }
  }

  // ---------------------------------------------------------------- survivors

  predicate RepeatsStamp(s: State, e: nat) {
    exists i, j :: 0 <= i < j < |s.lines| && s.lines[i].stamp.epoch == e && s.lines[i].stamp == s.lines[j].stamp
  }

  /** From a state in order, the present test purpose never repeats a stamp. */
  lemma {:induction false} StampsLater(states: seq<State>, ops: seq<Op>, pid: int, n: nat)
    requires |states| > 0 && Continues(states, ops, states[0], pid) && n < |states| && Inv(states[0], pid)
    ensures states[0].epoch <= states[n].epoch && !RepeatsStamp(states[n], states[0].epoch)
    ensures states[n].epoch == states[0].epoch ==> Inv(states[n], pid)
  {
    if n > 0 {
      StampsLater(states, ops, pid, n - 1);
      var s, op := states[n - 1], ops[n - 1];
      assert Allowed(s, op) && states[n] == Do(s, op, pid);
      LinesAdded(s, op, pid);
      if s.epoch == states[0].epoch && !op.StartTest? { InvStep(s, op, pid); }
    }
  }

  /** The run goes on with op. */
  lemma Extended(states: seq<State>, ops: seq<Op>, pid: int, s: State, op: Op)
    returns (states': seq<State>, ops': seq<Op>)
    requires Continues(states, ops, s, pid) && Allowed(states[|ops|], op)
    ensures Continues(states', ops', s, pid) && states'[|ops'|] == Do(states[|ops|], op, pid)
  {
    states', ops' := states + [Do(states[|ops|], op, pid)], ops + [op];
    forall k | 0 <= k < |ops'| ensures Allowed(states'[k], ops'[k]) && states'[k + 1] == Do(states'[k], ops'[k], pid) {
      if k < |ops| { assert Allowed(states[k], ops[k]) && states[k + 1] == Do(states[k], ops[k], pid); }
    }
  }

  /** By calling tet_setblock() t comes to any block. */
  lemma {:induction false} ComesToBlock(s: State, t: Tid, b: nat, pid: int) returns (states: seq<State>, ops: seq<Op>)
    requires s.nextBlock == 1 && Block(s, t) == 1 && Sequence(s, t) == 1 && b > 0
    ensures Continues(states, ops, s, pid)
    ensures var s' := states[|ops|];
            && s'.epoch == s.epoch && s'.context == s.context && s'.lines == s.lines
            && s'.nextBlock == b && Block(s', t) == b && Sequence(s', t) == 1
            && forall u :: u != t ==> Block(s', u) == Block(s, u) && Sequence(s', u) == Sequence(s, u)
  {
    if b == 1 {
      states, ops := [s], [];
    } else {
      states, ops := ComesToBlock(s, t, b - 1, pid);
      states, ops := Extended(states, ops, pid, s, SetBlock(t));
    }
  }

  /** A thread left over with a block: t comes to that block, catches up, and then both write the same stamp. */
  lemma SurvivorRepeats(s: State, t: Tid, u: Tid, pid: int) returns (states: seq<State>, ops: seq<Op>)
    requires Base(s, pid) && u != t && Block(s, u) > 0
    ensures Continues(states, ops, Do(s, StartTest(t), pid), pid) && RepeatsStamp(states[|ops|], s.epoch + 1)
  {
    var s1, q := Do(s, StartTest(t), pid), Sequence(s, u);
    states, ops := ComesToBlock(s1, t, Block(s, u), pid);
    var s2 := states[|ops|];
    var s2' := if s2.context == 0 then ContextSet(s2, t, pid) else s2;
    states, ops := Extended(states, ops, pid, s1, Write(t, q));
    var s3 := states[|ops|];
    assert s3 == LinesWritten(s2', t, q);
    LastLine(s2', t, q);
    LinesKeepContext(s2', t, q);
    OthersUntouched(s2', t, q, u);
    assert Block(s3, u) == Block(s2, u) == Block(s1, u) && Sequence(s3, u) == Sequence(s2, u) == Sequence(s1, u);
    states, ops := Extended(states, ops, pid, s1, Write(u, 1));
    SameStamp(s3, u, |s3.lines| - 1, pid);
  }

  lemma SameStamp(s: State, u: Tid, k: nat, pid: int)
    requires s.context != 0 && k < |s.lines| && s.lines[k].stamp == NextStamp(s, u)
    ensures RepeatsStamp(Do(s, Write(u, 1), pid), s.epoch)
  {
    assert LinesWritten(s, u, 0) == s;
    var s' := LineWritten(s, u);
    assert s'.lines[k] == s.lines[k] && s'.lines[|s.lines|].stamp == NextStamp(s, u);
  }

  /**
    The code resets only the calling thread's numbers at the start of a test purpose.  In every run, some
    continuation repeats a stamp in the new test purpose exactly if another thread has a block at its start.
   */
  lemma SurvivorRepeatsStampIff(states: seq<State>, ops: seq<Op>, pid: int, n: nat, t: Tid)
    requires IsRun(states, ops, pid) && n < |states|
    ensures (exists later: seq<State>, calls: seq<Op> ::
               Continues(later, calls, Do(states[n], StartTest(t), pid), pid)
               && RepeatsStamp(later[|calls|], states[n].epoch + 1))
            <==> !Alone(states[n], t)
  {
    var s := states[n];
    BaseHolds(states, ops, pid, n);
    if Alone(s, t) {
      StartsInOrder(s, t, pid);
      forall later: seq<State>, calls: seq<Op> | Continues(later, calls, Do(s, StartTest(t), pid), pid)
        ensures !RepeatsStamp(later[|calls|], s.epoch + 1)
      {
        StampsLater(later, calls, pid, |calls|);
      }
    } else {
      var u :| u in s.block && u != t && s.block[u] != 0;
      var later, calls := SurvivorRepeats(s, t, u, pid);
    }
  }

  /**
    A detached thread that outlives its test purpose: threads 1 and 2, started in one test purpose each,
    write the same stamp.
   */
  lemma DetachedThreadRepeatsStamp(pid: int) returns (states: seq<State>, ops: seq<Op>)
    requires pid != 0
    ensures IsRun(states, ops, pid)
    ensures var lines := states[|ops|].lines;
            |lines| == 2 && lines[0].writer == 2 && lines[1].writer == 1 && lines[0].stamp == lines[1].stamp
  {
    var s := State(0, pid, 0, map[], map[], []);
    states, ops := [s], [];
    states, ops := Extended(states, ops, pid, s, StartTest(0));
    states, ops := Extended(states, ops, pid, s, StartThread(1));
    states, ops := Extended(states, ops, pid, s, SetBlock(1));
    states, ops := Extended(states, ops, pid, s, SetBlock(0));
    states, ops := Extended(states, ops, pid, s, StartTest(0));
    states, ops := Extended(states, ops, pid, s, StartThread(2));
    states, ops := Extended(states, ops, pid, s, SetBlock(2));
    var s7 := states[|ops|];
    assert Block(s7, 1) == 2 && Sequence(s7, 1) == 1 && Block(s7, 2) == 2 && Sequence(s7, 2) == 1 && s7.lines == [];
    states, ops := Extended(states, ops, pid, s, Write(2, 1));
    assert LinesWritten(s7, 2, 0) == s7 && states[|ops|] == LineWritten(s7, 2);
    var s8 := states[|ops|];
    states, ops := Extended(states, ops, pid, s, Write(1, 1));
    assert LinesWritten(s8, 1, 0) == s8 && states[|ops|] == LineWritten(s8, 1);
  }

  // ---------------------------------------------------------------- pairs

  /** The pair of numbers alone, as it appears after the context on a line. */
  function Pair(l: Line): (int, int) {
    (l.stamp.block, l.stamp.sequence)
  }

  /** Two lines of test purpose e carry the same pair. */
  predicate Repeats(s: State, e: nat) {
    exists i, j :: 0 <= i < j < |s.lines| && s.lines[i].stamp.epoch == s.lines[j].stamp.epoch == e
                   && Pair(s.lines[i]) == Pair(s.lines[j])
  }

  /** A line of the present test purpose, in whatever context, is in the block that t has now. */
  predicate BlockUsed(s: State, t: Tid) {
    exists l :: l in s.lines && l.stamp.epoch == s.epoch && l.stamp.block == Block(s, t)
  }

  /** The line's numbers have been passed by the thread that owns its block. */
  predicate Passed(s: State, l: Line) {
    && 0 < l.stamp.block <= s.nextBlock && l.stamp.sequence >= 1
    && forall t :: t in s.block && s.block[t] == l.stamp.block ==> l.stamp.sequence < Sequence(s, t)
  }

  predicate PairInv(s: State) {
    && NumbersOk(s) && !Repeats(s, s.epoch)
    && (forall l :: l in s.lines ==> l.stamp.epoch <= s.epoch)
    && (forall l :: l in s.lines && l.stamp.epoch == s.epoch ==> Passed(s, l))
  }

  lemma PairLineKept(s: State, t: Tid)
    requires PairInv(s) && Block(s, t) > 0
    ensures PairInv(LineWritten(s, t)) && Block(LineWritten(s, t), t) == Block(s, t)
  {
    var s', line := LineWritten(s, t), Line(NextStamp(s, t), t);
    forall l | l in s'.lines && l.stamp.epoch == s'.epoch ensures Passed(s', l) {
      assert l in s.lines || l == line;
      if l in s.lines { assert Passed(s, l); }
    }
    forall i, j | 0 <= i < j < |s'.lines| && s'.lines[i].stamp.epoch == s'.lines[j].stamp.epoch == s'.epoch
      ensures Pair(s'.lines[i]) != Pair(s'.lines[j])
    {
      assert s.lines[i] == s'.lines[i] && s.lines[i] in s.lines;
      if j == |s.lines| { assert Passed(s, s.lines[i]); }
    }
  }

  lemma {:induction false} PairLinesKept(s: State, t: Tid, n: nat)
    requires PairInv(s) && Block(s, t) > 0
    ensures PairInv(LinesWritten(s, t, n)) && Block(LinesWritten(s, t, n), t) == Block(s, t)
  {
    if n > 0 {
      PairLinesKept(s, t, n - 1);
      PairLineKept(LinesWritten(s, t, n - 1), t);
    }
  }

  lemma PairContextKept(s: State, t: Tid, pid: int)
    requires PairInv(s) && (s.context != pid ==> !BlockUsed(s, t))
    ensures PairInv(ContextSet(s, t, pid))
  {
    var s' := ContextSet(s, t, pid);
    forall l | l in s'.lines && l.stamp.epoch == s'.epoch ensures Passed(s', l) { assert Passed(s, l); }
  }

  /** The one call that may bring a pair back: a change of context by a thread in a block that has been used. */
  predicate Harmless(s: State, op: Op, pid: int) {
    op.SetContext? && s.context != pid ==> !BlockUsed(s, op.t)
  }

  lemma PairStep(s: State, op: Op, pid: int)
    requires Inv(s, pid) && PairInv(s) && Allowed(s, op) && Harmless(s, op, pid) && Clean(s, op)
    ensures PairInv(Do(s, op, pid))
  {
    match op
    case SetContext(t) => PairContextKept(s, t, pid);
    case Write(t, n) =>
      if s.context == 0 { PairContextKept(s, t, pid); }
      PairLinesKept(if s.context == 0 then ContextSet(s, t, pid) else s, t, n);
    case StartTest(t) => PairsStart(s, t, pid);
    case StartChild(t) =>
    case _ => PairBlockKept(s, op, pid);
  }

  lemma PairBlockKept(s: State, op: Op, pid: int)
    requires PairInv(s) && (op.SetBlock? || op.StartThread? || op.EndThread? || op.Exec?)
    ensures PairInv(Do(s, op, pid))
  {
    var s' := Do(s, op, pid);
    forall l | l in s'.lines && l.stamp.epoch == s'.epoch ensures Passed(s', l) { assert Passed(s, l); }
  }

  lemma PairsStart(s: State, t: Tid, pid: int)
    requires Base(s, pid) && Alone(s, t)
    ensures PairInv(Do(s, StartTest(t), pid))
  {
    var s' := Do(s, StartTest(t), pid);
    assert forall l :: l in s'.lines ==> l.stamp.epoch < s'.epoch;
    assert forall i :: 0 <= i < |s'.lines| ==> s'.lines[i] in s'.lines;
  }

  /** The calls of test purpose e are harmless. */
  predicate EpochHarmless(states: seq<State>, ops: seq<Op>, pid: int, n: nat, e: nat)
    requires n <= |ops| && |states| == |ops| + 1
  {
    forall k {:trigger ops[k]} :: 0 <= k < n && states[k].epoch == e ==> Harmless(states[k], ops[k], pid)
  }

  lemma {:induction false} PairInvHolds(states: seq<State>, ops: seq<Op>, pid: int, n: nat)
    requires IsRun(states, ops, pid) && n < |states| && StartedClean(states, ops, n)
    requires EpochHarmless(states, ops, pid, n, states[n].epoch)
    ensures PairInv(states[n])
  {
    if n > 0 {
      var s, op := states[n - 1], ops[n - 1];
      assert Allowed(s, op) && states[n] == Do(s, op, pid);
      LinesAdded(s, op, pid);
      if op.StartTest? {
        BaseHolds(states, ops, pid, n - 1);
        PairsStart(s, op.t, pid);
      } else {
        PairInvHolds(states, ops, pid, n - 1);
        InvHolds(states, ops, pid, n - 1);
        PairStep(s, op, pid);
      }
    }
  }

  /**
    In every run, no two lines of a test purpose that was started alone carry the same block and sequence
    number, unless a call in that test purpose is not harmless.
   */
  lemma PairsUnique(states: seq<State>, ops: seq<Op>, pid: int, n: nat, i: nat, j: nat)
    requires IsRun(states, ops, pid) && n < |states| && i < j < |states[n].lines|
    requires states[n].lines[i].stamp.epoch == states[n].lines[j].stamp.epoch
    requires EpochClean(states, ops, states[n].lines[i].stamp.epoch)
    requires EpochHarmless(states, ops, pid, n, states[n].lines[i].stamp.epoch)
    ensures Pair(states[n].lines[i]) != Pair(states[n].lines[j])
  {
    var m := LastOfEpoch(states, ops, pid, n, i);
    CleanThen(states, ops, pid, m);
    PairInvHolds(states, ops, pid, m);
    assert !Repeats(states[m], states[m].epoch);
    assert states[n].lines[i] == states[m].lines[i] && states[n].lines[j] == states[m].lines[j];
  }

  lemma {:induction false} OwnContextHolds(states: seq<State>, ops: seq<Op>, pid: int, n: nat)
    requires IsRun(states, ops, pid) && n < |states|
    requires forall k :: 0 <= k < n && ops[k].Write? && ops[k].n > 0 ==>
               states[k].context == 0 || states[k].context == pid
    ensures states[n].lines == [] || states[n].context == pid
  {
    if n > 0 {
      OwnContextHolds(states, ops, pid, n - 1);
      var s, op := states[n - 1], ops[n - 1];
      assert states[n] == Do(s, op, pid);
      if op.Write? { LinesKeepContext(if s.context == 0 then ContextSet(s, op.t, pid) else s, op.t, op.n); }
    }
  }

  /** In particular, in every run in which lines are written only without a context or in the process's own. */
  lemma PairsUniqueInOwnContext(states: seq<State>, ops: seq<Op>, pid: int, n: nat, i: nat, j: nat)
    requires IsRun(states, ops, pid) && n < |states| && i < j < |states[n].lines|
    requires states[n].lines[i].stamp.epoch == states[n].lines[j].stamp.epoch
    requires EpochClean(states, ops, states[n].lines[i].stamp.epoch)
    requires forall k :: 0 <= k < n && ops[k].Write? && ops[k].n > 0 ==>
               states[k].context == 0 || states[k].context == pid
    ensures Pair(states[n].lines[i]) != Pair(states[n].lines[j])
  {
    forall k | 0 <= k < n ensures Harmless(states[k], ops[k], pid) {
      OwnContextHolds(states, ops, pid, k);
    }
    PairsUnique(states, ops, pid, n, i, j);
  }

  lemma ContextStays(s: State, op: Op, pid: int)
    requires s.context == pid != 0
    ensures Do(s, op, pid).context == pid
  {
    if op.Write? { LinesKeepContext(s, op.t, op.n); }
  }

  /** Until the process has its own context, nothing has gone wrong. */
  lemma {:induction false} HarmlessBefore(states: seq<State>, ops: seq<Op>, pid: int, n: nat)
    requires IsRun(states, ops, pid) && n < |states| && states[n].context != pid
    ensures EpochHarmless(states, ops, pid, n, states[n].epoch)
  {
    forall k | 0 <= k < n && states[k].epoch == states[n].epoch ensures Harmless(states[k], ops[k], pid) {
      if ops[k].SetContext? {
        assert states[k + 1] == Do(states[k], ops[k], pid);
        OwnContextStays(states, ops, pid, k + 1, n);
      }
    }
  }

  lemma {:induction false} OthersUntouched(s: State, t: Tid, n: nat, u: Tid)
    requires u != t
    ensures Block(LinesWritten(s, t, n), u) == Block(s, u) && Sequence(LinesWritten(s, t, n), u) == Sequence(s, u)
  {
    if n > 0 { OthersUntouched(s, t, n - 1, u); }
  }

  lemma {:induction false} LastLine(s: State, t: Tid, n: nat)
    requires n > 0
    ensures var s' := LinesWritten(s, t, n);
            && |s'.lines| == |s.lines| + n && Sequence(s', t) == Sequence(s, t) + n && Block(s', t) == Block(s, t)
            && s'.lines[|s'.lines| - 1].stamp == Stamp(s.epoch, s.context, Block(s, t), Sequence(s, t) + n - 1)
  {
    LinesKeepContext(s, t, n - 1);
    if n > 1 { LastLine(s, t, n - 1); } else { assert LinesWritten(s, t, 0) == s; }
  }

  /** Once the context is the process's own, no call can bring a pair back in the present test purpose. */
  lemma {:induction false} NoRepeatLater(states: seq<State>, ops: seq<Op>, pid: int, n: nat)
    requires |states| > 0 && Continues(states, ops, states[0], pid) && n < |states|
    requires Inv(states[0], pid) && PairInv(states[0]) && states[0].context == pid
    ensures states[n].context == pid && !Repeats(states[n], states[0].epoch) && states[0].epoch <= states[n].epoch
    ensures states[n].epoch == states[0].epoch ==> Inv(states[n], pid) && PairInv(states[n])
  {
    if n > 0 {
      NoRepeatLater(states, ops, pid, n - 1);
      var s, op := states[n - 1], ops[n - 1];
      assert Allowed(s, op) && states[n] == Do(s, op, pid);
      LinesAdded(s, op, pid);
      ContextStays(s, op, pid);
      if s.epoch == states[0].epoch && !op.StartTest? {
        InvStep(s, op, pid);
        PairStep(s, op, pid);
      }
    }
  }

  lemma {:induction false} OwnContextStays(states: seq<State>, ops: seq<Op>, pid: int, m: nat, n: nat)
    requires |states| > 0 && Continues(states, ops, states[0], pid) && m <= n < |states|
    requires states[m].context == pid != 0
    ensures states[n].context == pid
  {
    if m < n {
      OwnContextStays(states, ops, pid, m, n - 1);
      ContextStays(states[n - 1], ops[n - 1], pid);
    }
  }

  /** A thread whose block has been used need only write as many lines again. */
  lemma UsedBlockRepeats(s: State, t: Tid, pid: int) returns (states: seq<State>, ops: seq<Op>)
    requires Inv(s, pid) && PairInv(s) && s.context != pid && BlockUsed(s, t)
    ensures Continues(states, ops, ContextSet(s, t, pid), pid) && Repeats(states[|ops|], s.epoch)
  {
    var s1 := ContextSet(s, t, pid);
    var i :| 0 <= i < |s.lines| && s.lines[i].stamp.epoch == s.epoch && s.lines[i].stamp.block == Block(s, t);
    assert s.lines[i] in s.lines && Passed(s, s.lines[i]);
    var q := s.lines[i].stamp.sequence;
    var s2 := Do(s1, Write(t, q), pid);
    states, ops := [s1, s2], [Write(t, q)];
    LastLine(s1, t, q);
    LinesKeepContext(s1, t, q);
    assert s2.lines[i] == s.lines[i] && Pair(s2.lines[i]) == Pair(s2.lines[|s2.lines| - 1]);
  }

  /**
    When a process that has been writing under an inherited context takes its own, a pair can come back
    within the test purpose exactly if the calling thread's present block already carries a line.
   */
  lemma ContextChangeRepeatsPairIff(states: seq<State>, ops: seq<Op>, pid: int, n: nat, t: Tid)
    requires IsRun(states, ops, pid) && n < |states| && states[n].context != pid && StartedClean(states, ops, n)
    ensures (exists later: seq<State>, calls: seq<Op> ::
               Continues(later, calls, Do(states[n], SetContext(t), pid), pid)
               && Repeats(later[|calls|], states[n].epoch))
            <==> BlockUsed(states[n], t)
  {
    var s := states[n];
    InvHolds(states, ops, pid, n);
    HarmlessBefore(states, ops, pid, n);
    PairInvHolds(states, ops, pid, n);
    if BlockUsed(s, t) {
      var later, calls := UsedBlockRepeats(s, t, pid);
    } else {
      InvStep(s, SetContext(t), pid);
      PairStep(s, SetContext(t), pid);
      forall later: seq<State>, calls: seq<Op> | Continues(later, calls, Do(s, SetContext(t), pid), pid)
        ensures !Repeats(later[|calls|], s.epoch)
      {
        NoRepeatLater(later, calls, pid, |calls|);
      }
    }
  }

  /**
    A forked child that writes before it sets its context: it has its parent's context, block numbers
    and thread data, and its second line carries the pair of its first.
   */
  lemma InheritedContextRepeatsPair(s: State, t: Tid, pid: int)
    requires Init(s, pid) && s.context != 0 && s.context != pid && Block(s, t) > 0 && Sequence(s, t) == 1
    ensures Repeats(Do(Do(Do(s, Write(t, 1), pid), SetContext(t), pid), Write(t, 1), pid), s.epoch)
  {
    assert LinesWritten(s, t, 0) == s;
    var s1 := Do(s, Write(t, 1), pid);
    assert s1 == LineWritten(s, t);
    var s2 := Do(s1, SetContext(t), pid);
    assert LinesWritten(s2, t, 0) == s2;
    var s3 := Do(s2, Write(t, 1), pid);
    assert s3 == LineWritten(s2, t);
    assert Pair(s3.lines[0]) == Pair(s3.lines[1]) && s3.lines[0].stamp.epoch == s3.lines[1].stamp.epoch;
  }

  // ---------------------------------------------------------------- children

  /** The child of a fork in state s begins with what its parent has, but has written nothing, and is started. */
  ghost predicate IsChild(states: seq<State>, ops: seq<Op>, s: State, t: Tid, pid: int) {
    Continues(states, ops, s.(lines := []), pid) && ops != [] && ops[0] == StartChild(t)
  }

  lemma {:induction false} LinesInContext(s: State, t: Tid, n: nat, pid: int)
    requires s.context == pid && forall l :: l in s.lines ==> l.stamp.context == pid
    ensures forall l :: l in LinesWritten(s, t, n).lines ==> l.stamp.context == pid
  {
    if n > 0 {
      LinesInContext(s, t, n - 1, pid);
      LinesKeepContext(s, t, n - 1);
      var w := LinesWritten(s, t, n - 1);
      assert forall l :: l in LineWritten(w, t).lines ==> l in w.lines || l == Line(NextStamp(w, t), t);
    }
  }

  /** Everything a child writes is in its own context. */
  lemma {:induction false} ChildContext(states: seq<State>, ops: seq<Op>, s: State, t: Tid, pid: int, n: nat)
    requires IsChild(states, ops, s, t, pid) && pid != 0 && 0 < n < |states|
    ensures states[n].context == pid
    ensures forall l :: l in states[n].lines ==> l.stamp.context == pid
  {
    assert states[n] == Do(states[n - 1], ops[n - 1], pid);
    if n > 1 {
      ChildContext(states, ops, s, t, pid, n - 1);
      ContextStays(states[n - 1], ops[n - 1], pid);
      if ops[n - 1].Write? { LinesInContext(states[n - 1], ops[n - 1].t, ops[n - 1].n, pid); }
    }
  }

  /**
    No line of a child, at any time, carries the stamp of a line that its parent writes in its own context,
    before the fork or after it.
   */
  lemma ChildLinesDistinct(states: seq<State>, ops: seq<Op>, pid: int, m: nat, n: nat, i: nat,
                           child: seq<State>, calls: seq<Op>, t: Tid, childPid: int, k: nat, j: nat)
    requires IsRun(states, ops, pid) && m < |states| && n < |states| && i < |states[n].lines|
    requires IsChild(child, calls, states[m], t, childPid) && childPid != 0 && childPid != pid
    requires k < |child| && j < |child[k].lines| && states[n].lines[i].stamp.context == pid
    ensures child[k].lines[j].stamp != states[n].lines[i].stamp && child[k].lines[j].stamp.context == childPid
  {
    assert k > 0;
    ChildContext(child, calls, states[m], t, childPid, k);
    assert child[k].lines[j] in child[k].lines;
  }

  /** The lines of one thread. */
  function Own(lines: seq<Line>, t: Tid): seq<Line> {
    if lines == [] then [] else
      var last := lines[|lines| - 1];
      Own(lines[..|lines| - 1], t) + if last.writer == t then [last] else []
  }

  /** t has written in block 1 from sequence number 1 on, and goes on there. */
  predicate InFirstBlock(s: State, t: Tid, e: nat, pid: int) {
    && s.epoch == e && s.context == pid && Block(s, t) == 1 && Sequence(s, t) == |Own(s.lines, t)| + 1
    && forall i :: 0 <= i < |Own(s.lines, t)| ==> Own(s.lines, t)[i].stamp == Stamp(e, pid, 1, i + 1)
  }

  lemma {:induction false} FirstBlockLines(s: State, t: Tid, u: Tid, n: nat, e: nat, pid: int)
    requires InFirstBlock(s, t, e, pid)
    ensures InFirstBlock(LinesWritten(s, u, n), t, e, pid)
  {
    if n > 0 {
      FirstBlockLines(s, t, u, n - 1, e, pid);
      var w := LinesWritten(s, u, n - 1);
      var lines := LineWritten(w, u).lines;
      assert lines[..|lines| - 1] == w.lines;
    }
  }

  /** Calls that leave t's numbers to its writing: all calls of other threads except a new program. */
  predicate LeavesAlone(op: Op, t: Tid) {
    && !op.StartTest? && !op.StartChild? && !op.Exec?
    && ((op.StartThread? || op.EndThread? || op.SetBlock?) ==> op.t != t)
  }

  /**
    Until the thread that was forked takes another block, its i-th line in the child carries block 1 and
    sequence number i, whatever other threads of the child do.
   */
  lemma {:induction false} ChildStartsInFirstBlock(states: seq<State>, ops: seq<Op>, s: State, t: Tid, pid: int, n: nat)
    requires IsChild(states, ops, s, t, pid) && pid != 0 && 0 < n < |states|
    requires forall k :: 1 <= k < n ==> LeavesAlone(ops[k], t)
    ensures InFirstBlock(states[n], t, s.epoch, pid)
  {
    var w, op := states[n - 1], ops[n - 1];
    assert states[n] == Do(w, op, pid);
    if n > 1 {
      ChildStartsInFirstBlock(states, ops, s, t, pid, n - 1);
      assert LeavesAlone(op, t);
      if op.Write? { FirstBlockLines(w, t, op.t, op.n, s.epoch, pid); }
    }
  }

  // ---------------------------------------------------------------- which numbers

  /** Of the lines from `since` on, the i-th that t wrote carries block b and sequence number i; the next will, too. */
  predicate Numbered(s: State, t: Tid, since: nat, b: int) {
    && since <= |s.lines| && Block(s, t) == b && Sequence(s, t) == |Own(s.lines[since..], t)| + 1
    && forall i :: 0 <= i < |Own(s.lines[since..], t)| ==>
         Own(s.lines[since..], t)[i].stamp.block == b && Own(s.lines[since..], t)[i].stamp.sequence == i + 1
  }

  lemma LineNumbered(s: State, u: Tid, t: Tid, since: nat, b: int)
    requires Numbered(s, t, since, b)
    ensures Numbered(LineWritten(s, u), t, since, b)
  {
    var lines := LineWritten(s, u).lines[since..];
    assert lines[..|lines| - 1] == s.lines[since..];
  }

  lemma {:induction false} LinesNumbered(s: State, u: Tid, n: nat, t: Tid, since: nat, b: int)
    requires Numbered(s, t, since, b)
    ensures Numbered(LinesWritten(s, u, n), t, since, b)
  {
    if n > 0 {
      LinesNumbered(s, u, n - 1, t, since, b);
      LineNumbered(LinesWritten(s, u, n - 1), u, t, since, b);
    }
  }

  /** The calls after which t's lines are numbered from 1: they give t this block. */
  predicate Begins(op: Op, t: Tid) {
    op == SetBlock(t) || op == StartTest(t) || op == SetContext(t)
  }

  function BlockFrom(s: State, op: Op, t: Tid): int {
    if op.SetBlock? then s.nextBlock + 1 else if op.StartTest? then 1 else Block(s, t)
  }

  /** No call but these changes them, and a context that is set already changes nothing. */
  predicate Changes(s: State, op: Op, t: Tid, pid: int) {
    !LeavesAlone(op, t) || (op == SetContext(t) && s.context != pid)
  }

  /**
    In every run: once t has set its block or started a test purpose, or has changed the context, the i-th
    line that it writes carries its block and sequence number i, until it does one of these again.
   */
  lemma {:induction false} NumberedFromOne(states: seq<State>, ops: seq<Op>, pid: int, m: nat, n: nat, t: Tid)
    requires IsRun(states, ops, pid) && m < n < |states|
    requires Begins(ops[m], t) && (ops[m].SetContext? ==> states[m].context != pid)
    requires forall k :: m < k < n ==> !Changes(states[k], ops[k], t, pid)
    ensures Numbered(states[n], t, |states[m].lines|, BlockFrom(states[m], ops[m], t))
  {
    var s, op := states[n - 1], ops[n - 1];
    assert states[n] == Do(s, op, pid);
    if n == m + 1 {
      assert states[n].lines[|s.lines|..] == [];
    } else {
      NumberedFromOne(states, ops, pid, m, n - 1, t);
      BaseHolds(states, ops, pid, n - 1);
      assert !Changes(s, op, t, pid);
      hide IsRun, Base;
      StaysNumbered(s, op, pid, t, |states[m].lines|, BlockFrom(states[m], ops[m], t));
    }
  }

  lemma StaysNumbered(s: State, op: Op, pid: int, t: Tid, since: nat, b: int)
    requires Numbered(s, t, since, b) && !Changes(s, op, t, pid) && (s.context == 0 ==> s.lines == [])
    ensures Numbered(Do(s, op, pid), t, since, b)
  {
    if op.Write? && op.n > 0 {
      var s' := if s.context == 0 then ContextSet(s, op.t, pid) else s;
      assert s'.lines[since..] == s.lines[since..] && (s.context == 0 ==> Own(s.lines[since..], t) == []);
      LinesNumbered(s', op.t, op.n, t, since, b);
    }
  }

  /** How many of the calls from m to n set a block. */
  function BlocksSet(ops: seq<Op>, m: nat, n: nat): nat
    requires m <= n <= |ops|
  {
    if m == n then 0 else BlocksSet(ops, m, n - 1) + if ops[n - 1].SetBlock? then 1 else 0
  }

  /** Blocks are given out one after the other, to all threads alike, and tet_tpstart() takes the first. */
  lemma {:induction false} BlocksInTurn(states: seq<State>, ops: seq<Op>, pid: int, m: nat, n: nat)
    requires IsRun(states, ops, pid) && m <= n < |states|
    requires forall k :: m <= k < n ==> !ops[k].StartTest? && !ops[k].StartChild?
    ensures states[n].nextBlock == states[m].nextBlock + BlocksSet(ops, m, n)
    ensures m > 0 && ops[m - 1].StartTest? ==> states[m].nextBlock == 1
  {
    if m > 0 { assert states[m] == Do(states[m - 1], ops[m - 1], pid); }
    if m < n {
      BlocksInTurn(states, ops, pid, m, n - 1);
      var s, op := states[n - 1], ops[n - 1];
      assert states[n] == Do(s, op, pid);
      if op.Write? { LinesKeepBlocks(if s.context == 0 then ContextSet(s, op.t, pid) else s, op.t, op.n); }
    }
  }

  lemma {:induction false} LinesKeepBlocks(s: State, t: Tid, n: nat)
    ensures LinesWritten(s, t, n).nextBlock == s.nextBlock
  {
    if n > 0 { LinesKeepBlocks(s, t, n - 1); }
  }

  /** A thread that has ended is left over in no test purpose, even if another one begins with its id. */
  lemma EndedIsGone(s: State, op: Op, u: Tid, t: Tid, pid: int)
    requires (op == EndThread(u) || op == StartThread(u)) && u != t
    ensures Alone(Do(s, op, pid), t) <==> forall v :: v != t && v != u ==> Block(s, v) == 0
  {
    var s' := Do(s, op, pid);
    forall v | v != t && v != u ensures Block(s', v) == Block(s, v) { }
    if Alone(s', t) {
      forall v | v != t && v != u ensures Block(s, v) == 0 { assert Block(s', v) == Block(s, v); }
    } else {
      var v :| v in s'.block && v != t && s'.block[v] != 0;
      assert Block(s, v) != 0;
    }
  }

  // ---------------------------------------------------------------- threads without a block

  /** The condition is needed: any two threads that both write before their first block collide. */
  lemma UnsetThreadsCollide(s: State, t: Tid, u: Tid, pid: int)
    requires s.context != 0 && t != u
    requires t !in s.block && t !in s.sequence && u !in s.block && u !in s.sequence
    ensures var s' := Do(Do(s, Write(t, 1), pid), Write(u, 1), pid);
            && |s'.lines| == |s.lines| + 2
            && s'.lines[|s.lines|].stamp == s'.lines[|s.lines| + 1].stamp
            && s'.lines[|s.lines|].writer != s'.lines[|s.lines| + 1].writer
  {
    var s1 := Do(s, Write(t, 1), pid);
    assert LinesWritten(s, t, 0) == s;
    assert s1 == LineWritten(s, t);
    assert LinesWritten(s1, u, 0) == s1;
  }

  /** The variables behind the numbers, as the library updates them in place. */
  class Numbering {
    var epoch: nat
    var context: int
    var nextBlock: int
    var block: map<Tid, int>
    var sequence: map<Tid, int>
    var lines: seq<Line>

    function View(): State
      reads this
    {
      State(epoch, context, nextBlock, block, sequence, lines)
    }

    constructor (inherited: int)
      ensures View() == State(0, inherited, 0, map[], map[], [])
    {
      epoch, context, nextBlock, block, sequence, lines := 0, inherited, 0, map[], map[], [];
    }

    /** tet_setcontext() */
    method SetContext(t: Tid, pid: int)
      modifies this
      ensures View() == Do(old(View()), Op.SetContext(t), pid)
    {
      if context != pid {
        context := pid;
        sequence := sequence[t := 1];
      }
    }

    /** tet_setblock() */
    method SetBlock(t: Tid)
      modifies this
      ensures forall pid :: View() == Do(old(View()), Op.SetBlock(t), pid)
    {
      nextBlock := nextBlock + 1;
      block := block[t := nextBlock];
      sequence := sequence[t := 1];
    }

    /** What tet_vprintf() and tet_minfoline() do to the numbers: one stamp for each of n lines. */
    method WriteLines(t: Tid, n: nat, pid: int)
      modifies this
      ensures View() == Do(old(View()), Op.Write(t, n), pid)
    {
      if n == 0 { return; }
      if context == 0 { SetContext(t, pid); }
      ghost var start := View();
      for k := 0 to n
        invariant View() == LinesWritten(start, t, k)
      {
        lines := lines + [Line(Stamp(epoch, context, Block(View(), t), Sequence(View(), t)), t)];
        sequence := sequence[t := Sequence(View(), t) + 1];
      }
    }

    /** tet_tpstart() */
    method StartTest(t: Tid)
      modifies this
      ensures forall pid :: View() == Do(old(View()), Op.StartTest(t), pid)
    {
      epoch := epoch + 1;
      nextBlock, block, sequence := 1, block[t := 1], sequence[t := 1];
    }

    /** tet_fork() in the child: only the forking thread is left, and the blocks start again. */
    method StartChild(t: Tid, pid: int)
      modifies this
      ensures View() == Do(old(View()), Op.StartChild(t), pid)
    {
      SetContext(t, pid);
      nextBlock, block, sequence := 0, map[], map[];
      ghost var mid := View();
      SetBlock(t);
      assert View() == Do(mid, Op.SetBlock(t), pid);
    }

    /** tet_main() of a program that tet_exec() has started: the last block number is passed on. */
    method Exec()
      modifies this
      ensures forall pid :: View() == Do(old(View()), Op.Exec, pid)
    {
      block, sequence := map[], map[];
    }
  }
}

/**
  What the routines of module MutexOrder do to the mutexes from beginning to end: the sequences of locks
  and unlocks that each of them can go through.
 */
module LockTraces {
  import opened MutexOrder
  import opened Options

  datatype Event = Lock(m: Mutex) | Unlock(m: Mutex)

  /** A move first gets what is wanted, if anything, and then gives up a mutex, if one is named. */
  function Events(pc: Pc, m: Move): seq<Event> {
    (if Wants(pc).Some? then [Lock(Wants(pc).value)] else [])
    + if m.unlock.Some? then [Unlock(m.unlock.value)] else []
  }

  /** From pc to the end of the routine. */
  predicate Completes(pc: Pc, moves: seq<Move>)
    decreases |moves|
  {
    && moves != [] && Permits(pc, moves[0])
    && if moves[0].pc == Out then |moves| == 1 else Completes(moves[0].pc, moves[1..])
  }

  function Trace(pc: Pc, moves: seq<Move>): seq<Event>
    decreases |moves|
  {
    if moves == [] then [] else Events(pc, moves[0]) + Trace(moves[0].pc, moves[1..])
  }

  /** The mutex is locked and unlocked n times. */
  function Pairs(m: Mutex, n: nat): seq<Event> {
    if n == 0 then [] else [Lock(m), Unlock(m)] + Pairs(m, n - 1)
  }

  const EVERYTHING: seq<Event> := [
    Lock(Top), Lock(ThrTab), Lock(ThrWait), Lock(SigAlrm), Lock(Alarm),
    Unlock(Alarm), Unlock(SigAlrm), Unlock(ThrWait), Unlock(ThrTab), Unlock(Top)]

  /** What an alarm thread does once its first wait has timed out. */
  function Ringing(k: nat): seq<Event> {
    [Lock(SigAlrm)] + Pairs(Alarm, k) + [Unlock(SigAlrm)]
  }

  /** The sequences of locks and unlocks of each routine, given by where it begins. */
  ghost predicate Does(entry: Pc, es: seq<Event>) {
    match entry
    case WantTab => es == [Lock(ThrTab), Unlock(ThrTab)]
    case WantClean => exists n: nat :: es == [Lock(ThrTab)] + Pairs(ThrWait, n) + [Unlock(ThrTab)]
    case WantWatch => exists n: nat :: n > 0 && es == Pairs(ThrWait, n)
    case WantClear => es == [Lock(Alarm), Unlock(Alarm)]
    case WantFirst =>
      || (exists n: nat :: n > 0 && es == Pairs(Alarm, n))
      || (exists n: nat, k: nat :: n > 0 && k > 0 && es == Pairs(Alarm, n) + Ringing(k))
    case Forking(_) => es == EVERYTHING
    case _ => false
  }

  predicate IsEntry(pc: Pc) {
    pc.WantTab? || pc.WantClean? || pc.WantWatch? || pc.WantClear? || pc.WantFirst? || pc == Forking(0)
  }

  // ---------------------------------------------------------------- what is left at each place

  function RingingLeft(sig: Option<nat>): seq<Event> {
    match sig case None => [] case Some(k) => Ringing(k)
  }

  /** What is left to do, with n rounds of the loop to go and `sig` rounds of a second loop after a timeout. */
  function Left(pc: Pc, n: nat, sig: Option<nat>): seq<Event> {
    match pc
    case WantTab => [Lock(ThrTab), Unlock(ThrTab)]
    case HasTab => [Unlock(ThrTab)]
    case WantClean => [Lock(ThrTab)] + Pairs(ThrWait, n) + [Unlock(ThrTab)]
    case HasClean | Joining(_) | WantJoined => Pairs(ThrWait, n) + [Unlock(ThrTab)]
    case HasJoined => [Unlock(ThrWait)] + Pairs(ThrWait, n) + [Unlock(ThrTab)]
    case WantWatch | Watching | WantWatchAgain => Pairs(ThrWait, n)
    case HasWatch => [Unlock(ThrWait)] + Pairs(ThrWait, n)
    case WantClear => [Lock(Alarm), Unlock(Alarm)]
    case HasClear => [Unlock(Alarm)]
    case WantFirst | FirstAsleep | WantFirstAgain => Pairs(Alarm, n) + RingingLeft(sig)
    case HasFirst => [Unlock(Alarm)] + Pairs(Alarm, n) + RingingLeft(sig)
    case WantSig => RingingLeft(sig)
    case HasSig | WantSecond | SecondAsleep | WantSecondAgain => Pairs(Alarm, n) + [Unlock(SigAlrm)]
    case HasSecond => [Unlock(Alarm)] + Pairs(Alarm, n) + [Unlock(SigAlrm)]
    case Restoring => [Unlock(SigAlrm)]
    case Forking(k) => if k <= 5 then EVERYTHING[k..] else []
    case Unforking(k) => if k <= 5 then EVERYTHING[10 - k..] else []
    case _ => []
  }

  /** The numbers of rounds that are possible there. */
  predicate Possible(pc: Pc, n: nat, sig: Option<nat>) {
    match pc
    case WantTab | HasTab | WantClear | HasClear | Restoring => n == 0 && sig == None
    case WantClean | HasClean | Joining(_) | HasJoined | HasWatch | HasSecond => sig == None
    case WantJoined | WantWatch | Watching | WantWatchAgain => n > 0 && sig == None
    case HasSig | WantSecond | SecondAsleep | WantSecondAgain => n > 0 && sig == None
    case WantFirst | FirstAsleep | WantFirstAgain => n > 0 && (sig.Some? ==> sig.value > 0)
    case HasFirst => sig.Some? ==> sig.value > 0
    case WantSig => n == 0 && sig.Some? && sig.value > 0
    case Forking(k) => k <= 5 && n == 0 && sig == None
    case Unforking(k) => k <= 5 && n == 0 && sig == None
    case _ => false
  }

  /** The rounds that are left before a move, given those that are left after it. */
  function Before(pc: Pc, m: Move, n: nat, sig: Option<nat>): (nat, Option<nat>) {
    if m.pc == Out then (0, None)
    else match pc
    case WantJoined | WantWatch | WantWatchAgain | WantFirst | WantFirstAgain | WantSecond | WantSecondAgain =>
      (n + 1, sig)
    case HasFirst => if m.pc.WantSig? then (0, sig) else (n, sig)
    case WantSig => (0, Some(n))
    case _ => (n, sig)
  }

  ghost predicate Leaves(pc: Pc, m: Move, n: nat, sig: Option<nat>) {
    var (n', sig') := Before(pc, m, n, sig);
    Possible(pc, n', sig') && Left(pc, n', sig') == Events(pc, m) + Left(m.pc, n, sig)
  }

  predicate OfTable(pc: Pc) {
    pc.WantTab? || pc.HasTab? || pc.WantClean? || pc.HasClean? || pc.Joining? || pc.WantJoined? || pc.HasJoined?
  }

  predicate OfFirst(pc: Pc) {
    pc.WantFirst? || pc.HasFirst? || pc.FirstAsleep? || pc.WantFirstAgain? || pc.WantSig?
  }

  predicate OfSecond(pc: Pc) {
    pc.HasSig? || pc.WantSecond? || pc.HasSecond? || pc.SecondAsleep? || pc.WantSecondAgain? || pc.Restoring?
  }

  predicate OfFork(pc: Pc) {
    pc.Forking? || pc.Unforking?
  }

  lemma TableLeaves(pc: Pc, m: Move, n: nat, sig: Option<nat>)
    requires OfTable(pc) && Permits(pc, m) && m.pc != Out && Possible(m.pc, n, sig)
    ensures Leaves(pc, m, n, sig)
  {
  }

  lemma FirstLeaves(pc: Pc, m: Move, n: nat, sig: Option<nat>)
    requires OfFirst(pc) && Permits(pc, m) && m.pc != Out && Possible(m.pc, n, sig)
    ensures Leaves(pc, m, n, sig)
  {
    if pc == HasFirst && m.pc.WantSig? {
      assert [Unlock(Alarm)] + Pairs(Alarm, 0) + RingingLeft(sig) == [Unlock(Alarm)] + RingingLeft(sig);
    }
  }

  lemma SecondLeaves(pc: Pc, m: Move, n: nat, sig: Option<nat>)
    requires OfSecond(pc) && Permits(pc, m) && m.pc != Out && Possible(m.pc, n, sig)
    ensures Leaves(pc, m, n, sig)
  {
  }

  lemma ForkLeaves(pc: Pc, m: Move, n: nat, sig: Option<nat>)
    requires OfFork(pc) && ThreadOk(Thread(pc, 0)) && Permits(pc, m) && m.pc != Out && Possible(m.pc, n, sig)
    ensures Leaves(pc, m, n, sig)
  {
  }

  lemma MoveLeaves(pc: Pc, m: Move, n: nat, sig: Option<nat>)
    requires ThreadOk(Thread(pc, 0)) && Permits(pc, m) && pc != Out && m.pc != Out && Possible(m.pc, n, sig)
    ensures Leaves(pc, m, n, sig)
  {
    if OfTable(pc) {
      TableLeaves(pc, m, n, sig);
    } else if OfFirst(pc) {
      FirstLeaves(pc, m, n, sig);
    } else if OfSecond(pc) {
      SecondLeaves(pc, m, n, sig);
    } else if OfFork(pc) {
      ForkLeaves(pc, m, n, sig);
    }
  }

  lemma LastMoveLeaves(pc: Pc, m: Move)
    requires ThreadOk(Thread(pc, 0)) && Permits(pc, m) && pc != Out && m.pc == Out
    ensures Possible(pc, 0, None) && Left(pc, 0, None) == Events(pc, m)
  {
  }

  /** Every way to the end of a routine is one of those. */
  lemma {:induction false} TraceIs(pc: Pc, moves: seq<Move>) returns (n: nat, sig: Option<nat>)
    requires ThreadOk(Thread(pc, 0)) && pc != Out && Completes(pc, moves)
    ensures Possible(pc, n, sig) && Trace(pc, moves) == Left(pc, n, sig)
    decreases |moves|
  {
    var m := moves[0];
    MoveStaysOk(pc, m);
    hide Permits, ThreadOk, Possible, Left, Events;
    if m.pc == Out {
      assert Trace(Out, moves[1..]) == [];
      LastMoveLeaves(pc, m);
      n, sig := 0, None;
    } else {
      n, sig := TraceIs(m.pc, moves[1..]);
      MoveLeaves(pc, m, n, sig);
      var before := Before(pc, m, n, sig);
      n, sig := before.0, before.1;
    }
  }

  // ---------------------------------------------------------------- and all of those are possible

  const RESTORED: (Move, nat, Option<nat>) := (Move(Out, Some(SigAlrm)), 0, None)

  /** A move that does the next of it, and the rounds that are left then. */
  function Choice(pc: Pc, n: nat, sig: Option<nat>): (Move, nat, Option<nat>)
    requires Possible(pc, n, sig)
  {
    match pc
    case WantTab => (Move(HasTab, None), 0, None)
    case HasTab => (Move(Out, Some(ThrTab)), 0, None)
    case WantClean => (Move(HasClean, None), n, None)
    case HasClean => if n == 0 then (Move(Out, Some(ThrTab)), 0, None) else (Move(WantJoined, None), n, None)
    case Joining(_) => if n == 0 then (Move(HasClean, None), n, None) else (Move(WantJoined, None), n, None)
    case WantJoined => (Move(HasJoined, None), n - 1, None)
    case HasJoined => (Move(HasClean, Some(ThrWait)), n, None)
    case WantWatch => (Move(HasWatch, None), n - 1, None)
    case HasWatch => if n == 0 then (Move(Out, Some(ThrWait)), 0, None) else (Move(Watching, Some(ThrWait)), n, None)
    case Watching => (Move(WantWatchAgain, None), n, None)
    case WantWatchAgain => (Move(HasWatch, None), n - 1, None)
    case WantClear => (Move(HasClear, None), 0, None)
    case HasClear => (Move(Out, Some(Alarm)), 0, None)
    case WantFirst => (Move(HasFirst, None), n - 1, sig)
    case HasFirst =>
      if n > 0 then (Move(FirstAsleep, Some(Alarm)), n, sig)
      else if sig.Some? then (Move(WantSig, Some(Alarm)), 0, sig)
      else (Move(Out, Some(Alarm)), 0, None)
    case FirstAsleep => (Move(WantFirstAgain, None), n, sig)
    case WantFirstAgain => (Move(HasFirst, None), n - 1, sig)
    case WantSig => (Move(HasSig, None), sig.value, None)
    case HasSig => (Move(WantSecond, None), n, None)
    case WantSecond => (Move(HasSecond, None), n - 1, None)
    case HasSecond =>
      if n > 0 then (Move(SecondAsleep, Some(Alarm)), n, None) else (Move(Restoring, Some(Alarm)), 0, None)
    case SecondAsleep => (Move(WantSecondAgain, None), n, None)
    case WantSecondAgain => (Move(HasSecond, None), n - 1, None)
    case Forking(k) => (if k < 5 then Move(Forking(k + 1), None) else Move(Unforking(5), None), 0, None)
    case Unforking(k) => (if k > 0 then Move(Unforking(k - 1), Some(ALL[k - 1])) else Move(Out, None), 0, None)
    case _ => RESTORED
  }

  /** Moves that change no mutex come before one that does. */
  function Silent(pc: Pc): nat {
    match pc
    case Joining(_) => 2
    case HasClean | Watching | FirstAsleep | HasSig | SecondAsleep => 1
    case Forking(k) => if k <= 5 then 17 - k else 0
    case Unforking(k) => k + 1
    case _ => 0
  }

  lemma ChoiceLeaves(pc: Pc, n: nat, sig: Option<nat>)
    requires Possible(pc, n, sig)
    ensures var (m, n', sig') := Choice(pc, n, sig);
            && Permits(pc, m) && pc != Out && ThreadOk(Thread(pc, 0))
            && (m.pc == Out ==> n == 0 && sig == None)
            && (m.pc != Out ==> Possible(m.pc, n', sig') && Before(pc, m, n', sig') == (n, sig))
  {
  }

  lemma ChoiceEnds(pc: Pc, n: nat, sig: Option<nat>)
    requires Possible(pc, n, sig)
    ensures var (m, n', sig') := Choice(pc, n, sig);
            m.pc != Out && Events(pc, m) == [] ==> Silent(m.pc) < Silent(pc)
  {
  }

  lemma {:induction false} WayThrough(pc: Pc, n: nat, sig: Option<nat>) returns (moves: seq<Move>)
    requires Possible(pc, n, sig)
    ensures Completes(pc, moves) && Trace(pc, moves) == Left(pc, n, sig)
    decreases |Left(pc, n, sig)|, Silent(pc)
  {
    var (m, n', sig') := Choice(pc, n, sig);
    ChoiceLeaves(pc, n, sig);
    ChoiceEnds(pc, n, sig);
    hide Permits, ThreadOk, Possible, Left, Events, Choice, Silent, Before;
    if m.pc == Out {
      moves := [m];
      assert Trace(Out, moves[1..]) == [];
      LastMoveLeaves(pc, m);
    } else {
      MoveLeaves(pc, m, n', sig');
      var rest := WayThrough(m.pc, n', sig');
      moves := [m] + rest;
      assert moves[1..] == rest;
    }
  }

  lemma LeftIsDone(pc: Pc, n: nat, sig: Option<nat>)
    requires IsEntry(pc) && Possible(pc, n, sig)
    ensures Does(pc, Left(pc, n, sig))
  {
    if pc == WantFirst && sig == None { assert Pairs(Alarm, n) + [] == Pairs(Alarm, n); }
  }

  lemma DoneIsLeft(pc: Pc, es: seq<Event>) returns (n: nat, sig: Option<nat>)
    requires IsEntry(pc) && Does(pc, es)
    ensures Possible(pc, n, sig) && es == Left(pc, n, sig)
  {
    n, sig := 0, None;
    match pc
    case WantClean => n :| es == [Lock(ThrTab)] + Pairs(ThrWait, n) + [Unlock(ThrTab)];
    case WantWatch => n :| n > 0 && es == Pairs(ThrWait, n);
    case WantFirst =>
      if k: nat :| k > 0 && es == Pairs(Alarm, k) {
        n := k;
        assert Pairs(Alarm, n) + [] == Pairs(Alarm, n);
      } else {
        var m: nat, k: nat :| m > 0 && k > 0 && es == Pairs(Alarm, m) + Ringing(k);
        n, sig := m, Some(k);
      }
    case _ =>
  }

  /** Each routine can lock and unlock the mutexes in exactly the stated ways, from where it begins to its end. */
  lemma RoutineTracesIff(entry: Pc, es: seq<Event>)
    requires IsEntry(entry)
    ensures (exists moves: seq<Move> :: Completes(entry, moves) && Trace(entry, moves) == es) <==> Does(entry, es)
  {
    if moves: seq<Move> :| Completes(entry, moves) && Trace(entry, moves) == es {
      var n, sig := TraceIs(entry, moves);
      LeftIsDone(entry, n, sig);
    }
    if Does(entry, es) {
      var n, sig := DoneIsLeft(entry, es);
      var moves := WayThrough(entry, n, sig);
    }
  }

  // ---------------------------------------------------------------- calls

  /** A thread in no routine may lock the API any number of times: it gets the mutex once, and counts the calls. */
  lemma {:induction false} LocksNest(states: seq<State>, acts: seq<Action>, s: State, t: Tid, n: nat)
    returns (states': seq<State>, acts': seq<Action>)
    requires Reached(states, acts, s) && t in s.threads && s.threads[t] == Thread(Out, 0) && Top !in s.owner && n > 0
    ensures Reached(states', acts', State(s.owner[Top := t], s.threads[t := Thread(Out, n)]))
    ensures |acts'| == |acts| + n + 1
    decreases n
  {
    hide Reached;
    if n == 1 {
      var w := s.(threads := s.threads[t := Thread(WantTop, 0)]);
      states', acts' := Goes(states, acts, s, ApiLock(t), w);
      Twice(s.threads, t, Thread(WantTop, 0), Thread(Out, 1));
      states', acts' := Goes(states', acts', w, GotTop(t), State(s.owner[Top := t], s.threads[t := Thread(Out, 1)]));
    } else {
      var w := State(s.owner[Top := t], s.threads[t := Thread(Out, n - 1)]);
      states', acts' := LocksNest(states, acts, s, t, n - 1);
      Twice(s.threads, t, Thread(Out, n - 1), Thread(Out, n));
      states', acts' := Goes(states', acts', w, ApiLock(t), w.(threads := w.threads[t := Thread(Out, n)]));
    }
  }

  /** After as many unlocks everything is as it was. */
  lemma {:induction false} UnlocksReturn(states: seq<State>, acts: seq<Action>, s: State, t: Tid, n: nat)
    returns (states': seq<State>, acts': seq<Action>)
    requires t in s.threads && s.threads[t] == Thread(Out, 0) && Top !in s.owner && n > 0
    requires Reached(states, acts, State(s.owner[Top := t], s.threads[t := Thread(Out, n)]))
    ensures Reached(states', acts', s) && |acts'| == |acts| + n
    decreases n
  {
    hide Reached;
    var w := State(s.owner[Top := t], s.threads[t := Thread(Out, n)]);
    if n == 1 {
      assert w.owner - {Top} == s.owner && w.threads[t := Thread(Out, 0)] == s.threads;
      states', acts' := Goes(states, acts, w, ApiUnlock(t), s);
    } else {
      Twice(s.threads, t, Thread(Out, n), Thread(Out, n - 1));
      states', acts' := Goes(states, acts, w, ApiUnlock(t), w.(threads := w.threads[t := Thread(Out, n - 1)]));
      states', acts' := UnlocksReturn(states', acts', s, t, n - 1);
    }
  }

  lemma Twice<K, V>(m: map<K, V>, k: K, v: V, w: V)
    ensures m[k := v][k := w] == m[k := w]
  {
  }

  lemma Goes(states: seq<State>, acts: seq<Action>, s: State, a: Action, s': State)
    returns (states': seq<State>, acts': seq<Action>)
    requires Reached(states, acts, s) && Enabled(s, a) && Do(s, a) == s'
    ensures Reached(states', acts', s') && |acts'| == |acts| + 1
  {
    states', acts' := Next(states, acts, s, a);
  }

  /**
    An error report that is not stopped at the API lock comes to its end with the mutexes and the depth that
    it found, whether or not its thread is inside the API already.
   */
  lemma ReportComesToEnd(states: seq<State>, acts: seq<Action>, s: State, t: Tid)
    returns (states': seq<State>, acts': seq<Action>)
    requires Reached(states, acts, s) && t in s.threads && ReportsFrom(s.threads[t].pc).Some?
    requires if s.threads[t].depth == 0 then Top !in s.owner else Top in s.owner
    ensures var d, site := s.threads[t].depth, ReportsFrom(s.threads[t].pc).value;
            Reached(states', acts', s.(threads := s.threads[t := Thread(Ended(site), d)]))
  {
    hide Reached;
    var d, site := s.threads[t].depth, ReportsFrom(s.threads[t].pc).value;
    var end := s.(threads := s.threads[t := Thread(Ended(site), d)]);
    if d == 0 {
      var w := s.(threads := s.threads[t := Thread(WantReport(site), 0)]);
      var r := State(s.owner[Top := t], s.threads[t := Thread(HasReport(site), 1)]);
      Twice(s.threads, t, Thread(WantReport(site), 0), Thread(HasReport(site), 1));
      Twice(s.threads, t, Thread(HasReport(site), 1), Thread(Ended(site), 0));
      states', acts' := Goes(states, acts, s, Report(t), w);
      states', acts' := Goes(states', acts', w, GotReport(t), r);
      assert r.owner - {Top} == s.owner;
      states', acts' := Goes(states', acts', r, EndReport(t), end);
    } else {
      var r := s.(threads := s.threads[t := Thread(HasReport(site), d + 1)]);
      Twice(s.threads, t, Thread(HasReport(site), d + 1), Thread(Ended(site), d));
      states', acts' := Goes(states, acts, s, Report(t), r);
      states', acts' := Goes(states', acts', r, EndReport(t), end);
    }
  }
}

/**
  Errors that threads report at the same time.  tet_dtcmerror() counts the calls in progress and closes
  the standard channel for nested ones, without holding the API lock; each access to its two shared
  variables is one step here.  Whether the channel is open again at the end depends on how calls overlap.
 */
module ReportRace {
  type Id = nat

  /** The next access of a call. */
  datatype Pc =
    | Save       // keep the state of the channel
    | Clear      // close it
    | Leave      // the message has been reported: one call less in progress
    | Restore    // put back what was kept

  /** `saved` is what a nested call has kept; for others it is false from the start. */
  datatype Call = Call(pc: Pc, saved: bool)

  /** `order` is history: the calls in the order in which they began. */
  datatype State = State(combinedOk: bool, inprogress: int, calls: map<Id, Call>, order: seq<Id>)

  datatype Action = Enter(c: Id) | Run(c: Id)

  predicate Init(s: State) {
    s == State(true, 0, map[], [])
  }

  predicate Enabled(s: State, a: Action) {
    if a.Enter? then a.c !in s.calls else a.c in s.calls
  }

  function Put(s: State, c: Id, call: Call): State {
    s.(calls := s.calls[c := call])
  }

  /** The rest of order after c has gone. */
  function Rest(order: seq<Id>, c: Id): (r: seq<Id>) {
    if order == [] then [] else
      if order[|order| - 1] == c then Rest(order[..|order| - 1], c)
      else Rest(order[..|order| - 1], c) + [order[|order| - 1]]
  }

  function Gone(s: State, c: Id): State {
    s.(calls := s.calls - {c}, order := Rest(s.order, c))
  }

  function Do(s: State, a: Action): State
    requires Enabled(s, a)
  {
    match a
    case Enter(c) =>
      Put(s, c, Call(if s.inprogress != 0 then Save else Leave, false))
        .(inprogress := s.inprogress + 1, order := s.order + [c])
    case Run(c) =>
      var call := s.calls[c];
      match call.pc
      case Save => Put(s, c, Call(Clear, s.combinedOk))
      case Clear => Put(s, c, call.(pc := Leave)).(combinedOk := false)
      case Leave =>
        var left := s.(inprogress := s.inprogress - 1);
        if left.inprogress != 0 then Put(left, c, call.(pc := Restore)) else Gone(left, c)
      case Restore => Gone(s, c).(combinedOk := call.saved)
  }

  /** Steps from s on. */
  ghost predicate Continues(states: seq<State>, acts: seq<Action>, s: State) {
    && |states| == |acts| + 1 && states[0] == s
    && forall i {:trigger acts[i]} :: 0 <= i < |acts| ==>
         Enabled(states[i], acts[i]) && states[i + 1] == Do(states[i], acts[i])
  }

  ghost predicate IsRun(states: seq<State>, acts: seq<Action>) {
    |states| > 0 && Init(states[0]) && Continues(states, acts, states[0])
  }

  // ---------------------------------------------------------------- open again

  /** Only what has been kept can be given back. */
  predicate SavesLater(s: State) {
    forall c :: c in s.calls && s.calls[c].pc == Save ==> !s.calls[c].saved
  }

  lemma {:induction false} SavesLaterHolds(states: seq<State>, acts: seq<Action>, n: nat)
    requires IsRun(states, acts) && n < |states|
    ensures SavesLater(states[n])
  {
    if n > 0 {
      SavesLaterHolds(states, acts, n - 1);
      assert Enabled(states[n - 1], acts[n - 1]) && states[n - 1 + 1] == Do(states[n - 1], acts[n - 1]);
    }
  }

  /** The call has found the channel open, and may still give it back. */
  predicate Carries(s: State, c: Id) {
    c in s.calls && s.calls[c].saved
  }

  ghost predicate Recoverable(s: State) {
    s.combinedOk || exists c :: Carries(s, c)
  }

  /** Nobody but c has an open channel to give back. */
  ghost predicate NobodyElse(s: State, c: Id) {
    forall d :: d != c ==> !Carries(s, d)
  }

  /**
    The three steps that close the channel for good: closing it again after another call has opened it,
    putting back that it was closed, and leaving last with an open channel in hand.
   */
  ghost predicate Loses(s: State, a: Action) {
    && a.Run? && a.c in s.calls && NobodyElse(s, a.c)
    && match s.calls[a.c].pc
       case Save => false
       case Clear => s.combinedOk && !s.calls[a.c].saved
       case Leave => s.inprogress == 1 && !s.combinedOk && s.calls[a.c].saved
       case Restore => s.combinedOk && !s.calls[a.c].saved
  }

  lemma StepLosesIff(s: State, a: Action)
    requires Enabled(s, a) && Recoverable(s) && SavesLater(s)
    ensures !Recoverable(Do(s, a)) <==> Loses(s, a)
  {
    var s' := Do(s, a);
    assert forall d :: d != a.c ==> (Carries(s', d) <==> Carries(s, d));
    if !NobodyElse(s, a.c) {
      var d :| d != a.c && Carries(s, d);
      assert Carries(s', d);
    } else if !s.combinedOk {
      assert Carries(s, a.c);
    }
    if !Loses(s, a) && !s'.combinedOk { assert Carries(s', a.c) || !NobodyElse(s, a.c); }
  }

  /** What is lost stays lost. */
  lemma ClosedForGood(s: State, a: Action)
    requires Enabled(s, a) && !Recoverable(s)
    ensures !Recoverable(Do(s, a))
  {
    var s' := Do(s, a);
    assert forall d :: d != a.c ==> (Carries(s', d) <==> Carries(s, d));
    assert !Carries(s, a.c);
  }

  ghost predicate NoneLoses(states: seq<State>, acts: seq<Action>, n: nat)
    requires n <= |acts| && |states| == |acts| + 1
  {
    forall k :: 0 <= k < n ==> !Loses(states[k], acts[k])
  }

  lemma OneMoreStep(states: seq<State>, acts: seq<Action>, n: nat)
    requires 0 < n <= |acts| && |states| == |acts| + 1
    ensures NoneLoses(states, acts, n) <==> NoneLoses(states, acts, n - 1) && !Loses(states[n - 1], acts[n - 1])
  {
    hide Loses;
  }

  lemma {:induction false} RecoverableIff(states: seq<State>, acts: seq<Action>, n: nat)
    requires IsRun(states, acts) && n < |states|
    ensures Recoverable(states[n]) <==> NoneLoses(states, acts, n)
  {
    if n > 0 {
      RecoverableIff(states, acts, n - 1);
      assert Enabled(states[n - 1], acts[n - 1]) && states[n - 1 + 1] == Do(states[n - 1], acts[n - 1]);
      SavesLaterHolds(states, acts, n - 1);
      OneMoreStep(states, acts, n);
      hide IsRun, Recoverable, Loses, NoneLoses, Do, SavesLater;
      if Recoverable(states[n - 1]) {
        StepLosesIff(states[n - 1], acts[n - 1]);
      } else {
        ClosedForGood(states[n - 1], acts[n - 1]);
      }
    }
  }

  /** In every run: once no call is in progress, the channel is open exactly if none of these steps was taken. */
  lemma OpenAtEndIff(states: seq<State>, acts: seq<Action>, n: nat)
    requires IsRun(states, acts) && n < |states| && states[n].calls == map[]
    ensures states[n].combinedOk <==> NoneLoses(states, acts, n)
  {
    RecoverableIff(states, acts, n);
  }

  // ---------------------------------------------------------------- some continuation

  /** The run goes on with a. */
  lemma Extended(states: seq<State>, acts: seq<Action>, s: State, a: Action)
    returns (states': seq<State>, acts': seq<Action>)
    requires Continues(states, acts, s) && Enabled(states[|acts|], a)
    ensures Continues(states', acts', s) && states'[|acts'|] == Do(states[|acts|], a)
  {
    states', acts' := states + [Do(states[|acts|], a)], acts + [a];
    forall i | 0 <= i < |acts'|
      ensures Enabled(states'[i], acts'[i]) && states'[i + 1] == Do(states'[i], acts'[i])
    {
      if i < |acts| { assert Enabled(states[i], acts[i]) && states[i + 1] == Do(states[i], acts[i]); }
    }
  }

  /** A call with an open channel to give back can go on to give it back, if need be with another call begun first. */
  lemma GivesBack(s: State, c: Id) returns (states: seq<State>, acts: seq<Action>)
    requires Carries(s, c) && s.calls[c].pc != Save
    ensures Continues(states, acts, s) && states[|acts|].combinedOk
  {
    states, acts := [s], [];
    if s.calls[c].pc == Clear {
      states, acts := Extended(states, acts, s, Run(c));
    }
    if states[|acts|].calls[c].pc == Leave {
      if states[|acts|].inprogress == 1 {
        var d := Unused(states[|acts|].calls);
        states, acts := Extended(states, acts, s, Enter(d));
      }
      states, acts := Extended(states, acts, s, Run(c));
    }
    states, acts := Extended(states, acts, s, Run(c));
  }

  lemma Unused(calls: map<Id, Call>) returns (d: Id)
    ensures d !in calls
  {
    var ids := calls.Keys;
    d := Above(ids);
  }

  lemma {:induction false} Above(ids: set<Id>) returns (d: Id)
    ensures forall c :: c in ids ==> c < d
    decreases |ids|
  {
    d := 0;
    if ids != {} {
      var c :| c in ids;
      var e := Above(ids - {c});
      d := if c < e then e else c + 1;
      forall x | x in ids ensures x < d { assert x == c || x in ids - {c}; }
    }
  }

  /**
    In every reachable state the channel can be open at some later time exactly if it is open now or a call in
    progress has kept it open.
   */
  lemma OpensAgainIff(states: seq<State>, acts: seq<Action>, n: nat)
    requires IsRun(states, acts) && n < |states|
    ensures (exists later: seq<State>, more: seq<Action> ::
               Continues(later, more, states[n]) && later[|more|].combinedOk)
            <==> Recoverable(states[n])
  {
    var s := states[n];
    SavesLaterHolds(states, acts, n);
    if Recoverable(s) {
      if s.combinedOk {
        assert Continues([s], [], s);
      } else {
        var c :| Carries(s, c);
        var later, more := GivesBack(s, c);
      }
    } else {
      forall later: seq<State>, more: seq<Action> | Continues(later, more, s) ensures !later[|more|].combinedOk {
        StaysClosed(later, more, |more|);
      }
    }
  }

  lemma {:induction false} StaysClosed(states: seq<State>, acts: seq<Action>, n: nat)
    requires |states| > 0 && Continues(states, acts, states[0]) && !Recoverable(states[0]) && n < |states|
    ensures !Recoverable(states[n])
  {
    if n > 0 {
      StaysClosed(states, acts, n - 1);
      assert Enabled(states[n - 1], acts[n - 1]) && states[n - 1 + 1] == Do(states[n - 1], acts[n - 1]);
      ClosedForGood(states[n - 1], acts[n - 1]);
    }
  }

  // ---------------------------------------------------------------- two calls

  /** The second call begins during the first and ends after it: the channel is closed for good. */
  lemma OverlapCloses() returns (states: seq<State>, acts: seq<Action>)
    ensures IsRun(states, acts) && |states| == |acts| + 1
    ensures var s := states[|acts|]; s.calls == map[] && !s.combinedOk && !Recoverable(s)
  {
    var s := State(true, 0, map[], []);
    states, acts := [s], [];
    states, acts := Extended(states, acts, s, Enter(1));
    states, acts := Extended(states, acts, s, Enter(2));
    states, acts := Extended(states, acts, s, Run(2));
    states, acts := Extended(states, acts, s, Run(2));
    states, acts := Extended(states, acts, s, Run(1));
    states, acts := Extended(states, acts, s, Run(1));
    states, acts := Extended(states, acts, s, Run(2));
  }

  // ---------------------------------------------------------------- nested calls

  /** Only the call that began last acts. */
  predicate Nested(s: State, a: Action) {
    a.Run? ==> s.order != [] && s.order[|s.order| - 1] == a.c
  }

  /** The channel, as it has to be for the innermost of these calls to go on where it is. */
  function OkFor(stack: seq<Call>): bool {
    if |stack| <= 1 then true else
      var last := stack[|stack| - 1];
      (last.pc == Save || last.pc == Clear) && OkFor(stack[..|stack| - 1])
  }

  function Busy(stack: seq<Call>): (n: nat)
    ensures n <= |stack|
  {
    if stack == [] then 0 else
      Busy(stack[..|stack| - 1]) + if stack[|stack| - 1].pc == Restore then 0 else 1
  }

  /** The outermost call never closes the channel, and each other one has kept what was there before it. */
  predicate StackOk(stack: seq<Call>) {
    if stack == [] then true
    else if |stack| == 1 then stack[0] == Call(Leave, false)
    else
      var front, last := stack[..|stack| - 1], stack[|stack| - 1];
      StackOk(front) && (last.pc != Save ==> last.saved == OkFor(front))
  }

  ghost predicate OrderOk(s: State) {
    && (forall i, j :: 0 <= i < j < |s.order| ==> s.order[i] != s.order[j])
    && (forall i :: 0 <= i < |s.order| ==> s.order[i] in s.calls)
    && (forall c :: c in s.calls ==> c in s.order)
  }

  ghost function Stack(s: State): (stack: seq<Call>)
    requires OrderOk(s)
    ensures |stack| == |s.order|
  {
    seq(|s.order|, i requires 0 <= i < |s.order| => s.calls[s.order[i]])
  }

  /** Calls inside one another, outermost first. */
  ghost predicate NestedInv(s: State) {
    && OrderOk(s) && StackOk(Stack(s))
    && s.combinedOk == OkFor(Stack(s)) && s.inprogress == Busy(Stack(s))
  }

  lemma {:induction false} BusyWithin(stack: seq<Call>)
    requires StackOk(stack) && stack != []
    ensures Busy(stack) >= 1
  {
    if |stack| > 1 { BusyWithin(stack[..|stack| - 1]); }
  }

  lemma Pushed(stack: seq<Call>, call: Call)
    ensures (stack + [call])[..|stack|] == stack
  {
  }

  lemma Begun(s: State, s': State, c: Id)
    requires OrderOk(s) && c !in s.calls && s'.order == s.order + [c]
    requires c in s'.calls && s'.calls == s.calls[c := s'.calls[c]]
    ensures OrderOk(s') && Stack(s') == Stack(s) + [s'.calls[c]]
  {
    forall i | 0 <= i < |s.order| ensures s'.order[i] == s.order[i] && s.order[i] in s.calls { }
    assert Stack(s') == Stack(s) + [s'.calls[c]];
  }

  lemma NestedEnter(s: State, c: Id)
    requires NestedInv(s) && Enabled(s, Enter(c))
    ensures NestedInv(Do(s, Enter(c)))
  {
    var s', stack := Do(s, Enter(c)), Stack(s);
    if stack != [] { BusyWithin(stack); }
    Begun(s, s', c);
    Pushed(stack, s'.calls[c]);
  }

  /** The innermost call stays in progress. */
  lemma NestedPut(s: State, c: Id, call: Call)
    requires OrderOk(s) && s.order != [] && s.order[|s.order| - 1] == c
    ensures OrderOk(Put(s, c, call))
    ensures Stack(Put(s, c, call)) == Stack(s)[..|s.order| - 1] + [call]
  {
  }

  lemma RestOfLast(order: seq<Id>)
    requires order != [] && forall i, j :: 0 <= i < j < |order| ==> order[i] != order[j]
    ensures Rest(order, order[|order| - 1]) == order[..|order| - 1]
  {
    RestOfOther(order[..|order| - 1], order[|order| - 1]);
  }

  lemma {:induction false} RestOfOther(order: seq<Id>, c: Id)
    requires c !in order
    ensures Rest(order, c) == order
  {
    if order != [] { RestOfOther(order[..|order| - 1], c); }
  }

  lemma NestedGone(s: State, c: Id)
    requires OrderOk(s) && s.order != [] && s.order[|s.order| - 1] == c
    ensures OrderOk(Gone(s, c)) && Stack(Gone(s, c)) == Stack(s)[..|s.order| - 1]
  {
    RestOfLast(s.order);
    Ended(s, Gone(s, c), c);
  }

  lemma Ended(s: State, s': State, c: Id)
    requires OrderOk(s) && s.order != [] && s.order[|s.order| - 1] == c
    requires s'.order == s.order[..|s.order| - 1] && s'.calls == s.calls - {c}
    ensures OrderOk(s') && Stack(s') == Stack(s)[..|s.order| - 1]
  {
    forall d | d in s'.calls ensures d in s'.order {
      var i :| 0 <= i < |s.order| && s.order[i] == d;
      assert s'.order[i] == d;
    }
  }

  lemma NestedRun(s: State, c: Id)
    requires NestedInv(s) && Enabled(s, Run(c)) && Nested(s, Run(c))
    ensures NestedInv(Do(s, Run(c)))
  {
    var stack, call := Stack(s), s.calls[c];
    var front := stack[..|stack| - 1];
    assert stack[|stack| - 1] == call;
    InnermostRuns(stack, s.combinedOk, s.inprogress);
    var s' := Do(s, Run(c));
    if call.pc == Restore || (call.pc == Leave && s.inprogress == 1) {
      NestedGone(s, c);
      Alike(s', Gone(s, c));
    } else {
      NestedPut(s, c, s'.calls[c]);
      Alike(s', Put(s, c, s'.calls[c]));
    }
  }

  lemma Alike(s: State, s': State)
    requires s.order == s'.order && s.calls == s'.calls && OrderOk(s')
    ensures OrderOk(s) && Stack(s) == Stack(s')
  {
  }

  /** What the innermost call's next access makes of the calls, the channel and the count. */
  lemma InnermostRuns(stack: seq<Call>, ok: bool, busy: int)
    requires stack != [] && StackOk(stack) && ok == OkFor(stack) && busy == Busy(stack)
    ensures var front, call := stack[..|stack| - 1], stack[|stack| - 1];
            match call.pc
            case Save => Fits(front + [Call(Clear, ok)], ok, busy)
            case Clear => Fits(front + [call.(pc := Leave)], false, busy)
            case Leave => if busy != 1 then Fits(front + [call.(pc := Restore)], ok, busy - 1) else Fits(front, ok, 0)
            case Restore => Fits(front, call.saved, busy)
  {
    var front, call := stack[..|stack| - 1], stack[|stack| - 1];
    if front != [] { BusyWithin(front); }
    Pushed(front, Call(Clear, ok));
    Pushed(front, call.(pc := Leave));
    Pushed(front, call.(pc := Restore));
  }

  predicate Fits(stack: seq<Call>, ok: bool, busy: int) {
    StackOk(stack) && ok == OkFor(stack) && busy == Busy(stack)
  }

  lemma {:induction false} NestedHolds(states: seq<State>, acts: seq<Action>, n: nat)
    requires IsRun(states, acts) && n < |states|
    requires forall k :: 0 <= k < n ==> Nested(states[k], acts[k])
    ensures NestedInv(states[n])
  {
    if n > 0 {
      NestedHolds(states, acts, n - 1);
      assert Enabled(states[n - 1], acts[n - 1]) && states[n - 1 + 1] == Do(states[n - 1], acts[n - 1]);
      assert Nested(states[n - 1], acts[n - 1]);
      match acts[n - 1]
      case Enter(c) => NestedEnter(states[n - 1], c);
      case Run(c) => NestedRun(states[n - 1], c);
    }
  }

  lemma CallsInOrder(s: State)
    requires OrderOk(s)
    ensures s.order != [] ==> s.calls != map[]
  {
    if s.order != [] { assert s.order[0] in s.calls; }
  }

  /** In every run in which calls lie inside one another, the channel is open again once none is in progress. */
  lemma NestedStaysOpen(states: seq<State>, acts: seq<Action>, n: nat)
    requires IsRun(states, acts) && n < |states| && states[n].calls == map[]
    requires forall k :: 0 <= k < n ==> Nested(states[k], acts[k])
    ensures states[n].combinedOk
  {
    NestedHolds(states, acts, n);
    CallsInOrder(states[n]);
  }
}

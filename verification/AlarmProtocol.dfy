/**
  The threaded alarm protocol: tet_set_alarm(), its helper thread alrm_thr() and tet_clr_alarm(),
  for any number of alarms at once.  Each step is one access to shared state: the flag
  old_aa->waittime, the condition variable, the two mutexes and the process-wide disposition of
  SIGALRM.  The pointer to the condition variable is taken to be a local copy in each thread.
 */
module AlarmProtocol {
  import opened Options

  type Id = nat
  type Handler = int

  /** The heap cell of a condition variable. */
  datatype Cond = Unmade | Live | Destroyed | Freed

  /** The thread that sets and clears the alarm. */
  datatype CallerPc =
    | Start | Made | Created     // inside tet_set_alarm()
    | Armed                      // tet_set_alarm() returned 0, old_aa->cvp is set
    | Failed                     // tet_set_alarm() returned -1
    | TakeAlarm | ClearFlag | Signal | DropAlarm | ForgetCond | Join   // inside tet_clr_alarm()
    | Cleared                    // tet_clr_alarm() returned 0
    | Unjoined                   // tet_clr_alarm() returned -1 because the join failed

  /** alrm_thr().  `second` tells the wait inside tet_sigalrm_mtx from the first one. */
  datatype HelperPc =
    | NoThread
    | WantAlarm(second: bool) | TestFlag(second: bool) | Asleep(second: bool) | Waking(second: bool)
    | Settle(second: bool) | Unlock(second: bool) | Decide(second: bool)
    | TakeSig | Install | Kill | Restore | DropSig
    | Destroy | Free | Gone

  /** What a timed wait returns; `err` is uninitialised before the first one. */
  datatype Err = NoErr | Interrupted | TimedOut | OtherErr

  datatype Alarm = Alarm(
    caller: CallerPc,
    helper: HelperPc,
    flag: bool,          // old_aa->waittime != 0
    cvp: bool,           // old_aa->cvp != NULL
    cond: Cond,
    err: Err,
    action: Handler,     // new_aa->sa
    saved: Handler,      // oldsigact
    kills: nat,          // SIGALRMs sent
    frees: nat,          // frees of the condition variable
    misused: bool)       // a condition variable was touched that was not Live (or freed when not Destroyed)

  datatype Agent = Caller(id: Id) | Helper(id: Id)

  /** What the alarms share. */
  datatype Process = Process(
    original: Handler,
    disposition: Handler,
    alarmMtx: Option<Agent>,
    sigalrmMtx: Option<Id>,
    fatal: bool)

  datatype State = State(p: Process, alarms: map<Id, Alarm>)

  datatype Action =
    | New(a: Id, action: Handler)          // a caller with an alrmaction of its own
    | CallerStep(a: Id, ok: bool, junk: Err)
    | CallClear(a: Id)                     // tet_clr_alarm() on an alarm that was set, or has returned
    | HelperStep(a: Id, ok: bool)
    | Wake(a: Id, why: Err)                // the timed wait ends without a signal

  predicate Init(s: State) {
    s.p.disposition == s.p.original && s.p.alarmMtx == None && s.p.sigalrmMtx == None && !s.p.fatal && s.alarms == map[]
  }

  /** `spurious` admits timed waits that return 0 although nobody signalled. */
  predicate Enabled(spurious: bool, s: State, x: Action) {
    !s.p.fatal && (if x.New? then x.a !in s.alarms else x.a in s.alarms && Able(spurious, s.p, s.alarms[x.a], x))
  }

  /** The last call on the alarm has returned and left nothing to clear. */
  predicate Returned(pc: CallerPc) {
    pc.Failed? || pc.Cleared? || pc.Unjoined?
  }

  predicate Able(spurious: bool, p: Process, al: Alarm, x: Action) {
    match x
    case New(_, _) => false
    case CallerStep(_, ok, _) =>
      && !al.caller.Armed? && !Returned(al.caller)
      && (al.caller.TakeAlarm? ==> p.alarmMtx == None)
      && (al.caller.Join? && ok ==> al.helper.Gone?)
    case CallClear(_) => al.caller.Armed? || Returned(al.caller)
    case HelperStep(_, _) =>
      && !al.helper.NoThread? && !al.helper.Asleep? && !al.helper.Gone?
      && (al.helper.WantAlarm? || al.helper.Waking? ==> p.alarmMtx == None)
      && (al.helper.TakeSig? ==> p.sigalrmMtx == None)
    case Wake(_, why) => al.helper.Asleep? && (why == NoErr ==> spurious)
  }

  /** Record that the condition variable is used. */
  function Touch(al: Alarm): Alarm {
    al.(misused := al.misused || al.cond != Live)
  }

  function Release(al: Alarm): Alarm {
    al.(misused := al.misused || al.cond != Destroyed, cond := Freed, frees := al.frees + 1)
  }

  /** A step changes what is shared and the alarm that takes it. */
  function Do(s: State, x: Action): State
    requires x.New? || x.a in s.alarms
  {
    match x
    case New(a, action) =>
      s.(alarms := s.alarms[a := Alarm(Start, NoThread, false, false, Unmade, OtherErr, action, 0, 0, 0, false)])
    case _ =>
      var (p, al) := Step(s.p, s.alarms[x.a], x);
      State(p, s.alarms[x.a := al])
  }

  function Step(p: Process, al: Alarm, x: Action): (Process, Alarm) {
    match x
    case New(_, _) => (p, al)
    case CallerStep(a, ok, junk) => StepCaller(p, al, a, ok, junk)
    case CallClear(_) => (p, if al.cvp then al.(caller := TakeAlarm) else al)   // else EINVAL, and nothing is touched
    case HelperStep(a, ok) => StepHelper(p, al, a, ok)
    case Wake(_, why) => (p, if al.helper.Asleep? then al.(helper := Waking(al.helper.second), err := why) else al)
  }

  /** `ok` is the outcome of an allocation, of thread creation or of the join. */
  function StepCaller(p: Process, al: Alarm, a: Id, ok: bool, junk: Err): (Process, Alarm) {
    match al.caller
    case Start =>
      var al := al.(cvp := false, flag := true);
      (p, if ok then al.(caller := Made, cond := Live) else al.(caller := Failed))
    case Made =>
      (p, if ok then al.(caller := Created, helper := WantAlarm(false), err := junk)
          else Release(Touch(al).(cond := Destroyed)).(caller := Failed))
    case Created => (p, al.(caller := Armed, cvp := true))
    case TakeAlarm => (p.(alarmMtx := Some(Caller(a))), al.(caller := ClearFlag))
    case ClearFlag => (p, al.(caller := Signal, flag := false))
    case Signal =>
      var al := Touch(al).(caller := DropAlarm);
      (p, if al.helper.Asleep? then al.(helper := Waking(al.helper.second), err := NoErr) else al)
    case DropAlarm => (p.(alarmMtx := None), al.(caller := ForgetCond))
    case ForgetCond => (p, al.(caller := Join, cvp := false))
    case Join => (p, al.(caller := if ok then Cleared else Unjoined))
    case _ => (p, al)
  }

  /** `ok` is the outcome of sigaction() or of TET_THR_KILL(). */
  function StepHelper(p: Process, al: Alarm, a: Id, ok: bool): (Process, Alarm) {
    match al.helper
    case WantAlarm(n) => (p.(alarmMtx := Some(Helper(a))), al.(helper := TestFlag(n)))
    case TestFlag(n) =>
      if al.flag then (p.(alarmMtx := None), Touch(al).(helper := Asleep(n)))   // the wait gives the mutex up
      else (p, al.(helper := Settle(n)))
    case Waking(n) =>
      (p.(alarmMtx := Some(Helper(a))), al.(helper := if al.err == Interrupted then TestFlag(n) else Settle(n)))
    case Settle(n) => (p, al.(helper := Unlock(n), err := if al.flag then al.err else NoErr))
    case Unlock(n) => (p.(alarmMtx := None), al.(helper := Decide(n)))
    case Decide(n) =>
      if al.err == NoErr then (p, al.(helper := if n then Restore else Destroy))
      else if al.err == TimedOut && !n then (p, al.(helper := TakeSig))
      else (p.(fatal := true), al)
    case TakeSig => (p.(sigalrmMtx := Some(a)), al.(helper := Install))
    case Install =>
      if ok then (p.(disposition := al.action), al.(helper := Kill, saved := p.disposition))
      else (p.(fatal := true), al)
    case Kill =>
      if ok then (p, al.(helper := WantAlarm(true), kills := al.kills + 1)) else (p.(fatal := true), al)
    case Restore => (p.(disposition := al.saved), al.(helper := DropSig))
    case DropSig => (p.(sigalrmMtx := None), al.(helper := Destroy))
    case Destroy => (p, Touch(al).(helper := Free, cond := Destroyed))
    case Free => (p, Release(al).(helper := Gone))
    case _ => (p, al)
  }

  ghost predicate IsRun(spurious: bool, states: seq<State>, acts: seq<Action>) {
    && |states| == |acts| + 1
    && Init(states[0])
    && forall i {:trigger acts[i]} :: 0 <= i < |acts| ==>
         Enabled(spurious, states[i], acts[i]) && states[i + 1] == Do(states[i], acts[i])
  }

  // ---------------------------------------------------------------- the invariant

  predicate CallerLocked(al: Alarm) {
    al.caller.ClearFlag? || al.caller.Signal? || al.caller.DropAlarm?
  }

  /** The caller has signalled and let go of the mutex: it will not touch the condition variable again. */
  predicate Signalled(al: Alarm) {
    al.caller.ForgetCond? || al.caller.Join? || al.caller.Cleared? || al.caller.Unjoined?
  }

  predicate HelperLocked(al: Alarm) {
    al.helper.TestFlag? || al.helper.Settle? || al.helper.Unlock?
  }

  predicate HasSecond(pc: HelperPc) {
    pc.WantAlarm? || pc.TestFlag? || pc.Asleep? || pc.Waking? || pc.Settle? || pc.Unlock? || pc.Decide?
  }

  predicate SigLocked(al: Alarm) {
    || al.helper.Install? || al.helper.Kill? || al.helper.Restore? || al.helper.DropSig?
    || (HasSecond(al.helper) && al.helper.second)
  }

  /** The alarm's own action is installed. */
  predicate Installed(al: Alarm) {
    SigLocked(al) && !al.helper.Install? && !al.helper.DropSig?
  }

  predicate Finishing(al: Alarm) {
    al.helper.Destroy? || al.helper.Free? || al.helper.Gone?
  }

  predicate CallerInv(al: Alarm) {
    && !al.misused
    && (al.caller.Start? ==> al.helper.NoThread? && al.cond == Unmade && al.frees == 0 && !al.cvp)
    && (al.caller.Made? ==> al.helper.NoThread? && al.cond == Live && al.frees == 0 && !al.cvp && al.flag)
    && (al.caller.Failed? ==> al.helper.NoThread? && !al.cvp && (al.cond == Unmade || al.cond == Freed))
    && (al.caller.Failed? ==> al.frees == if al.cond == Freed then 1 else 0)
    && (al.helper.NoThread? ==> al.caller.Start? || al.caller.Made? || al.caller.Failed?)
    && (al.caller.Created? ==> !al.cvp)
    && (al.caller.Armed? || al.caller.TakeAlarm? ==> al.cvp)
    && (al.caller.Join? || al.caller.Cleared? || al.caller.Unjoined? ==> !al.cvp)
    && (al.caller.Cleared? ==> al.helper.Gone?)
    && (!al.helper.NoThread? ==>
          (al.flag <==> al.caller.Created? || al.caller.Armed? || al.caller.TakeAlarm? || al.caller.ClearFlag?))
  }

  predicate HelperInv(al: Alarm) {
    && (!al.helper.NoThread? && !al.helper.Free? && !al.helper.Gone? ==> al.cond == Live && al.frees == 0)
    && (al.helper.Free? ==> al.cond == Destroyed && al.frees == 0)
    && (al.helper.Gone? ==> al.cond == Freed && al.frees == 1)
    && (Finishing(al) || al.helper.Restore? || al.helper.DropSig? ==> Signalled(al))
    && (al.helper.Waking? && al.err == NoErr ==> !al.flag)
    && (al.helper.Settle? && al.flag ==> al.err != NoErr)
    && (al.helper.Unlock? && al.err == NoErr ==> !al.flag)
    && (al.helper.Decide? && al.err == NoErr ==> Signalled(al))
    && (al.kills > 0 ==> al.kills == 1 && (Finishing(al) || (SigLocked(al) && !al.helper.Install? && !al.helper.Kill?)))
  }

  predicate MutexInv(p: Process, a: Id, al: Alarm) {
    && (CallerLocked(al) <==> p.alarmMtx == Some(Caller(a)))
    && (HelperLocked(al) <==> p.alarmMtx == Some(Helper(a)))
    && (SigLocked(al) <==> p.sigalrmMtx == Some(a))
  }

  predicate DispositionInv(p: Process, al: Alarm) {
    && (Installed(al) ==> p.disposition == al.action && al.saved == p.original)
    && (SigLocked(al) && !Installed(al) ==> p.disposition == p.original)
    && (p.sigalrmMtx == None ==> p.disposition == p.original)
  }

  predicate SharedInv(p: Process, a: Id, al: Alarm) {
    MutexInv(p, a, al) && DispositionInv(p, al)
  }

  ghost predicate Inv(s: State) {
    && (forall a :: a in s.alarms ==>
          CallerInv(s.alarms[a]) && HelperInv(s.alarms[a]) && SharedInv(s.p, a, s.alarms[a]))
    && (s.p.alarmMtx.Some? ==> s.p.alarmMtx.value.id in s.alarms)
    && (s.p.sigalrmMtx.Some? ==> s.p.sigalrmMtx.value in s.alarms)
    && (s.p.sigalrmMtx == None ==> s.p.disposition == s.p.original)
  }

  lemma HelperKept(p: Process, al: Alarm, a: Id, ok: bool)
    requires CallerInv(al) && HelperInv(al) && !(HelperLocked(al) && CallerLocked(al))
    requires Able(false, p, al, HelperStep(a, ok))
    ensures var al' := StepHelper(p, al, a, ok).1; CallerInv(al') && HelperInv(al')
  {
  }

  lemma HelperMutexKept(p: Process, al: Alarm, a: Id, ok: bool)
    requires MutexInv(p, a, al) && Able(false, p, al, HelperStep(a, ok))
    ensures var (p', al') := StepHelper(p, al, a, ok); MutexInv(p', a, al')
  {
  }

  lemma HelperDispositionKept(p: Process, al: Alarm, a: Id, ok: bool)
    requires SharedInv(p, a, al) && Able(false, p, al, HelperStep(a, ok))
    ensures var (p', al') := StepHelper(p, al, a, ok); DispositionInv(p', al')
  {
  }

  lemma CallerKept(p: Process, al: Alarm, x: Action)
    requires CallerInv(al) && HelperInv(al) && SharedInv(p, x.a, al)
    requires !x.HelperStep? && Able(false, p, al, x)
    ensures var (p', al') := Step(p, al, x); CallerInv(al') && HelperInv(al')
  {
  }

  lemma CallerSharedKept(p: Process, al: Alarm, x: Action)
    requires CallerInv(al) && HelperInv(al) && SharedInv(p, x.a, al)
    requires !x.HelperStep? && Able(false, p, al, x)
    ensures var (p', al') := Step(p, al, x); SharedInv(p', x.a, al')
  {
  }

  lemma OthersKept(p: Process, al: Alarm, x: Action, b: Id, bl: Alarm)
    requires HelperInv(al) && SharedInv(p, x.a, al) && SharedInv(p, b, bl) && b != x.a
    requires Able(false, p, al, x)
    ensures SharedInv(Step(p, al, x).0, b, bl)
  {
  }

  /** A mutex is taken by the stepping alarm or left as it was. */
  lemma LocksOfActor(p: Process, al: Alarm, x: Action)
    requires SharedInv(p, x.a, al) && Able(false, p, al, x)
    ensures var p' := Step(p, al, x).0;
            && (p'.alarmMtx == None || p'.alarmMtx == p.alarmMtx || p'.alarmMtx.value.id == x.a)
            && (p'.sigalrmMtx == None || p'.sigalrmMtx == p.sigalrmMtx || p'.sigalrmMtx.value == x.a)
  {
  }

  lemma InvStep(s: State, x: Action)
    requires Inv(s) && Enabled(false, s, x)
    ensures Inv(Do(s, x))
  {
    var s' := Do(s, x);
    if !x.New? {
      var al := s.alarms[x.a];
      assert CallerInv(al) && HelperInv(al) && SharedInv(s.p, x.a, al);
      if x.HelperStep? {
        HelperKept(s.p, al, x.a, x.ok);
        HelperMutexKept(s.p, al, x.a, x.ok);
        HelperDispositionKept(s.p, al, x.a, x.ok);
      } else {
        CallerKept(s.p, al, x);
        CallerSharedKept(s.p, al, x);
      }
      LocksOfActor(s.p, al, x);
    }
    forall b | b in s'.alarms
      ensures CallerInv(s'.alarms[b]) && HelperInv(s'.alarms[b]) && SharedInv(s'.p, b, s'.alarms[b])
    {
      if b != x.a && !x.New? {
        OthersKept(s.p, s.alarms[x.a], x, b, s.alarms[b]);
      }
    }
  }

  lemma {:induction false} InvHolds(states: seq<State>, acts: seq<Action>, i: nat)
    requires IsRun(false, states, acts) && i < |states|
    ensures Inv(states[i])
  {
    if i > 0 {
      InvHolds(states, acts, i - 1);
      InvStep(states[i - 1], acts[i - 1]);
    }
  }

  // ---------------------------------------------------------------- what the invariant gives

  /** Waits, signals, destroys and frees of a condition variable happen only while they may. */
  lemma NoMisuse(states: seq<State>, acts: seq<Action>, i: nat, a: Id)
    requires IsRun(false, states, acts) && i < |states| && a in states[i].alarms
    ensures !states[i].alarms[a].misused
    ensures states[i].alarms[a].frees <= 1
    ensures states[i].alarms[a].caller.Signal? ==> states[i].alarms[a].cond == Live
  {
    InvHolds(states, acts, i);
    var al := states[i].alarms[a];
    assert CallerInv(al) && HelperInv(al) && SharedInv(states[i].p, a, al);
  }

  /** Once tet_clr_alarm() has succeeded, or tet_set_alarm() has failed, nothing of the alarm is left. */
  lemma ReleasedExactlyOnce(states: seq<State>, acts: seq<Action>, i: nat, a: Id)
    requires IsRun(false, states, acts) && i < |states| && a in states[i].alarms
    ensures var al := states[i].alarms[a];
            && (al.caller.Cleared? ==> al.helper.Gone? && al.cond == Freed && al.frees == 1)
            && (al.caller.Failed? ==> al.helper.NoThread? && (al.cond == Unmade || (al.cond == Freed && al.frees == 1)))
  {
    InvHolds(states, acts, i);
    assert CallerInv(states[i].alarms[a]) && HelperInv(states[i].alarms[a]);
  }

  /** The signal disposition is the original one whenever tet_sigalrm_mtx is free. */
  lemma DispositionRestored(states: seq<State>, acts: seq<Action>, i: nat)
    requires IsRun(false, states, acts) && i < |states|
    ensures states[i].p.sigalrmMtx == None ==> states[i].p.disposition == states[i].p.original
  {
    InvHolds(states, acts, i);
  }

  /** A SIGALRM is sent only by a live alarm that has not been cleared, with its own action installed. */
  lemma KillsUnderOwnAction(states: seq<State>, acts: seq<Action>, i: nat, a: Id)
    requires IsRun(false, states, acts) && i < |acts| && a in states[i].alarms && a in states[i + 1].alarms
    requires states[i + 1].alarms[a].kills != states[i].alarms[a].kills
    ensures states[i].alarms[a].kills == 0 && states[i + 1].alarms[a].kills == 1
    ensures states[i].p.disposition == states[i].alarms[a].action && states[i].p.sigalrmMtx == Some(a)
    ensures !states[i].alarms[a].caller.Cleared?
  {
    InvHolds(states, acts, i);
    var al := states[i].alarms[a];
    assert CallerInv(al) && HelperInv(al) && SharedInv(states[i].p, a, al);
    assert states[i + 1] == Do(states[i], acts[i]);
  }

  /** When the join fails the helper may still run, but it has been signalled and owns what is left to free. */
  lemma UnjoinedIsLeftToHelper(states: seq<State>, acts: seq<Action>, i: nat, a: Id)
    requires IsRun(false, states, acts) && i < |states| && a in states[i].alarms
    requires states[i].alarms[a].caller.Unjoined?
    ensures var al := states[i].alarms[a];
            && !al.cvp && !al.flag && !al.helper.NoThread?
            && (al.helper.Gone? <==> al.frees == 1) && (al.cond == Freed <==> al.frees == 1)
  {
    InvHolds(states, acts, i);
    assert CallerInv(states[i].alarms[a]) && HelperInv(states[i].alarms[a]);
  }

  /** After tet_clr_alarm() has returned, later calls for the same alarm change nothing and no SIGALRM follows. */
  lemma {:induction false} QuietOnceCleared(states: seq<State>, acts: seq<Action>, i: nat, j: nat, a: Id)
    requires IsRun(false, states, acts) && i <= j < |states| && a in states[i].alarms
    requires states[i].alarms[a].caller.Cleared?
    ensures a in states[j].alarms && states[j].alarms[a] == states[i].alarms[a]
  {
    if i < j {
      QuietOnceCleared(states, acts, i, j - 1, a);
      InvHolds(states, acts, j - 1);
      var al := states[j - 1].alarms[a];
      assert CallerInv(al) && HelperInv(al);
      assert states[j] == Do(states[j - 1], acts[j - 1]);
    }
  }

  // ---------------------------------------------------------------- what a timeout leads to

  /** Step k of the run ends a's first wait: the time was up, and the alarm had not been cleared. */
  predicate TimesOut(states: seq<State>, acts: seq<Action>, k: nat, a: Id)
    requires k < |acts| && |states| == |acts| + 1
  {
    && acts[k].HelperStep? && acts[k].a == a && a in states[k].alarms
    && states[k].alarms[a].helper == Settle(false) && states[k].alarms[a].err == TimedOut && states[k].alarms[a].flag
  }

  predicate HasTimedOut(states: seq<State>, acts: seq<Action>, i: nat, a: Id)
    requires i <= |acts| && |states| == |acts| + 1
  {
    exists k :: 0 <= k < i && TimesOut(states, acts, k, a)
  }

  /** Between the end of its first wait and TET_THR_KILL(). */
  predicate Sending(pc: HelperPc) {
    pc == Unlock(false) || pc == Decide(false) || pc.TakeSig? || pc.Install? || pc.Kill?
  }

  /** What the helper has sent, given whether its first wait has timed out. */
  predicate SentInv(al: Alarm, timedOut: bool) {
    && al.kills == (if timedOut && !Sending(al.helper) then 1 else 0)
    && (al.helper == Unlock(false) || al.helper == Decide(false) ==> (timedOut <==> al.err == TimedOut))
    && (al.helper.TakeSig? || al.helper.Install? || al.helper.Kill? ==> timedOut)
    && (al.helper.NoThread? || (HasSecond(al.helper) && !al.helper.second && !Sending(al.helper)) ==> !timedOut)
    && ((HasSecond(al.helper) && al.helper.second) || al.helper.Restore? || al.helper.DropSig? ==> timedOut)
  }

  /** The helper is there from its creation on, and so is a condition variable to clear. */
  predicate Started(al: Alarm) {
    && (al.helper.NoThread? <==> al.caller.Start? || al.caller.Made? || al.caller.Failed?)
    && (al.helper.NoThread? ==> !al.cvp)
  }

  lemma StartedStep(spurious: bool, p: Process, al: Alarm, x: Action)
    requires Started(al) && !x.New? && Able(spurious, p, al, x)
    ensures Started(Step(p, al, x).1)
  {
  }

  lemma SentHelperStep(spurious: bool, p: Process, al: Alarm, x: Action, timedOut: bool)
    requires SentInv(al, timedOut) && x.HelperStep? && Able(spurious, p, al, x)
    ensures var now := al.helper == Settle(false) && al.err == TimedOut && al.flag;
            SentInv(StepHelper(p, al, x.a, x.ok).1, timedOut || now)
  {
  }

  /** The caller starts the helper and may wake it, and sends nothing. */
  lemma CallerTouches(p: Process, al: Alarm, a: Id, ok: bool, junk: Err)
    requires Started(al)
    ensures var al' := StepCaller(p, al, a, ok, junk).1;
            && al'.kills == al.kills
            && ((al'.helper == al.helper && al'.err == al.err)
                || (al.helper.NoThread? && al'.helper == WantAlarm(false))
                || (al.helper.Asleep? && al'.helper == Waking(al.helper.second)))
  {
  }

  lemma SentCallerStep(p: Process, al: Alarm, a: Id, ok: bool, junk: Err, timedOut: bool)
    requires SentInv(al, timedOut) && Started(al)
    ensures SentInv(StepCaller(p, al, a, ok, junk).1, timedOut)
  {
    CallerTouches(p, al, a, ok, junk);
    hide StepCaller;
  }

  lemma SentStep(spurious: bool, p: Process, al: Alarm, x: Action, timedOut: bool)
    requires SentInv(al, timedOut) && Started(al) && !x.New? && Able(spurious, p, al, x)
    ensures var now := x.HelperStep? && al.helper == Settle(false) && al.err == TimedOut && al.flag;
            SentInv(Step(p, al, x).1, timedOut || now)
  {
    match x
    case HelperStep(_, _) =>
      SentHelperStep(spurious, p, al, x, timedOut);
      hide SentInv, Able, StepHelper;
    case CallerStep(a, ok, junk) =>
      SentCallerStep(p, al, a, ok, junk, timedOut);
      hide SentInv, Able, StepCaller;
    case _ => hide StepCaller, StepHelper;
  }

  lemma {:induction false} SentHolds(spurious: bool, states: seq<State>, acts: seq<Action>, i: nat, a: Id)
    requires IsRun(spurious, states, acts) && i < |states|
    ensures a in states[i].alarms ==>
              Started(states[i].alarms[a]) && SentInv(states[i].alarms[a], HasTimedOut(states, acts, i, a))
    ensures a !in states[i].alarms ==> !HasTimedOut(states, acts, i, a)
  {
    if i > 0 {
      var s, x := states[i - 1], acts[i - 1];
      SentHolds(spurious, states, acts, i - 1, a);
      assert Enabled(spurious, s, x) && states[i] == Do(s, x);
      assert HasTimedOut(states, acts, i, a)
             <==> HasTimedOut(states, acts, i - 1, a) || TimesOut(states, acts, i - 1, a);
      if a in s.alarms && x.a == a && !x.New? {
        StartedStep(spurious, s.p, s.alarms[a], x);
        SentStep(spurious, s.p, s.alarms[a], x, HasTimedOut(states, acts, i - 1, a));
      }
    }
  }

  /**
    In every reachable state a helper has sent exactly one SIGALRM if its first wait timed out and it has
    got past sending: it is in its second wait, restores the old action or is finishing.  Otherwise, and
    also when it finishes from its first wait, it has sent none.
   */
  lemma SentIffTimedOut(spurious: bool, states: seq<State>, acts: seq<Action>, i: nat, a: Id)
    requires IsRun(spurious, states, acts) && i < |states| && a in states[i].alarms
    ensures var al, timedOut := states[i].alarms[a], HasTimedOut(states, acts, i, a);
            && al.kills == (if timedOut && !Sending(al.helper) then 1 else 0)
            && (SigLocked(al) && !Sending(al.helper) ==> al.kills == 1)
            && (Finishing(al) ==> (al.kills == 1 <==> timedOut) && al.kills <= 1)
  {
    SentHolds(spurious, states, acts, i, a);
  }

  /** The first wait is over, with the time up and the flag set. */
  predicate TimeUp(al: Alarm) {
    al.flag && al.err == TimedOut && (al.helper == Waking(false) || al.helper == Settle(false))
  }

  lemma TimeUpStep(spurious: bool, p: Process, al: Alarm, x: Action, timedOut: bool)
    requires SentInv(al, timedOut) && Started(al) && !x.New? && Able(spurious, p, al, x) && TimeUp(Step(p, al, x).1)
    ensures TimeUp(al) || (x == Wake(x.a, TimedOut) && al.helper == Asleep(false))
  {
  }

  /** A wait that ends with the time up has been woken by the time: whatever a thread finds in `err` first. */
  lemma {:induction false} WokenByTime(spurious: bool, states: seq<State>, acts: seq<Action>, i: nat, a: Id)
    requires IsRun(spurious, states, acts) && i < |states| && a in states[i].alarms
    requires TimeUp(states[i].alarms[a])
    ensures exists j :: 0 <= j < i && acts[j] == Wake(a, TimedOut) && a in states[j].alarms
                        && states[j].alarms[a].helper == Asleep(false)
  {
    assert i > 0;
    var s, x := states[i - 1], acts[i - 1];
    assert Enabled(spurious, s, x) && states[i] == Do(s, x);
    SentHolds(spurious, states, acts, i - 1, a);
    assert a in s.alarms;
    if x.a == a { TimeUpStep(spurious, s.p, s.alarms[a], x, HasTimedOut(states, acts, i - 1, a)); }
    hide IsRun, HasTimedOut, SentInv;
    if TimeUp(s.alarms[a]) { WokenByTime(spurious, states, acts, i - 1, a); }
  }

  /** So a SIGALRM is sent only after the time was up, and the flag was found set under the mutex after that. */
  lemma SentAfterTimeout(spurious: bool, states: seq<State>, acts: seq<Action>, i: nat, a: Id)
    requires IsRun(spurious, states, acts) && i < |states| && a in states[i].alarms && states[i].alarms[a].kills > 0
    ensures exists j, k :: 0 <= j < k < i && acts[j] == Wake(a, TimedOut) && TimesOut(states, acts, k, a)
  {
    SentHolds(spurious, states, acts, i, a);
    var k :| 0 <= k < i && TimesOut(states, acts, k, a);
    WokenByTime(spurious, states, acts, k, a);
  }

  // ---------------------------------------------------------------- the end of the helper

  /** The most steps that the helper has left once the flag is clear. */
  function HelperLeft(pc: HelperPc): nat {
    match pc
    case NoThread | Gone => 0
    case Free => 1
    case Destroy => 2
    case DropSig => 3
    case Restore => 4
    case Decide(n) => if n then 5 else 13
    case Unlock(n) => if n then 6 else 14
    case Settle(n) => if n then 7 else 15
    case TestFlag(n) => if n then 8 else 16
    case WantAlarm(n) => if n then 9 else 17
    case Waking(n) => if n then 9 else 17
    case Asleep(n) => if n then 10 else 18
    case Kill => 10
    case Install => 11
    case TakeSig => 12
  }

  /** A helper that sleeps although the flag is clear is about to be signalled. */
  predicate NoLostWakeup(al: Alarm) {
    al.helper.Asleep? && !al.flag ==> al.caller.Signal?
  }

  lemma WakeupStep(spurious: bool, p: Process, al: Alarm, x: Action)
    requires NoLostWakeup(al) && !x.New? && Able(spurious, p, al, x)
    ensures NoLostWakeup(Step(p, al, x).1)
  {
  }

  lemma {:induction false} WakeupHolds(spurious: bool, states: seq<State>, acts: seq<Action>, i: nat, a: Id)
    requires IsRun(spurious, states, acts) && i < |states| && a in states[i].alarms
    ensures NoLostWakeup(states[i].alarms[a])
  {
    if i > 0 {
      var s, x := states[i - 1], acts[i - 1];
      assert Enabled(spurious, s, x) && states[i] == Do(s, x);
      if a in s.alarms {
        WakeupHolds(spurious, states, acts, i - 1, a);
        if x.a == a { WakeupStep(spurious, s.p, s.alarms[a], x); }
      }
    }
  }

  /** Once the flag is clear the helper never waits again: each of its steps brings it nearer to its end, */
  lemma HelperNears(p: Process, al: Alarm, a: Id, ok: bool)
    requires !al.helper.NoThread? && !al.helper.Gone? && !al.helper.Asleep? && !al.flag
    requires !StepHelper(p, al, a, ok).0.fatal
    ensures var al' := StepHelper(p, al, a, ok).1;
            !al'.flag && !al'.helper.NoThread? && HelperLeft(al'.helper) < HelperLeft(al.helper)
  {
  }

  /** and no other step takes it farther from that. */
  lemma OthersLeaveIt(spurious: bool, p: Process, al: Alarm, x: Action)
    requires Started(al) && !al.helper.NoThread? && !al.flag && !x.New? && !x.HelperStep? && Able(spurious, p, al, x)
    ensures var al' := Step(p, al, x).1;
            !al'.flag && !al'.helper.NoThread? && HelperLeft(al'.helper) <= HelperLeft(al.helper)
  {
    hide StepHelper;
  }

  /** How many of the steps from i to j are those of a's helper. */
  function StepsTaken(acts: seq<Action>, a: Id, i: nat, j: nat): nat
    requires i <= j <= |acts|
  {
    if i == j then 0 else
      StepsTaken(acts, a, i, j - 1) + if acts[j - 1].HelperStep? && acts[j - 1].a == a then 1 else 0
  }

  lemma {:induction false} HelperRuns(spurious: bool, states: seq<State>, acts: seq<Action>, i: nat, j: nat, a: Id)
    requires IsRun(spurious, states, acts) && i <= j < |states| && a in states[i].alarms && !states[j].p.fatal
    requires !states[i].alarms[a].helper.NoThread? && !states[i].alarms[a].flag
    ensures a in states[j].alarms && !states[j].alarms[a].flag && !states[j].alarms[a].helper.NoThread?
    ensures StepsTaken(acts, a, i, j) + HelperLeft(states[j].alarms[a].helper) <= HelperLeft(states[i].alarms[a].helper)
  {
    if i < j {
      var s, x := states[j - 1], acts[j - 1];
      assert Enabled(spurious, s, x) && states[j] == Do(s, x);
      HelperRuns(spurious, states, acts, i, j - 1, a);
      SentHolds(spurious, states, acts, j - 1, a);
      hide IsRun, HasTimedOut, SentInv, HelperLeft, StepHelper, StepCaller;
      if x.a == a {
        var al := s.alarms[a];
        if x.HelperStep? { HelperNears(s.p, al, a, x.ok); } else { OthersLeaveIt(spurious, s.p, al, x); }
      }
    }
  }

  /**
    Once the flag is clear the helper takes at most 18 steps more, unless the process ends with an error.
    Until it is gone it can always go on, but for a mutex that another thread has and for a signal that the
    caller is about to send: no wakeup is lost.
   */
  lemma HelperEnds(spurious: bool, states: seq<State>, acts: seq<Action>, i: nat, j: nat, a: Id)
    requires IsRun(spurious, states, acts) && i <= j < |states| && a in states[i].alarms && !states[j].p.fatal
    requires !states[i].alarms[a].helper.NoThread? && !states[i].alarms[a].flag
    ensures StepsTaken(acts, a, i, j) <= 18 && a in states[j].alarms
    ensures StepsTaken(acts, a, i, j) == 18 ==> states[j].alarms[a].helper.Gone?
    ensures var p, al := states[j].p, states[j].alarms[a];
            || al.helper.Gone? || Able(spurious, p, al, HelperStep(a, true))
            || (p.alarmMtx.Some? && (al.helper.WantAlarm? || al.helper.Waking?))
            || (p.sigalrmMtx.Some? && al.helper.TakeSig?)
            || (al.helper.Asleep? && al.caller.Signal?)
  {
    HelperRuns(spurious, states, acts, i, j, a);
    WakeupHolds(spurious, states, acts, j, a);
    hide IsRun, StepsTaken;
  }

  // ---------------------------------------------------------------- the end of a call

  /** The steps that a call of tet_set_alarm() or tet_clr_alarm() has left, if nothing fails. */
  function CallerLeft(pc: CallerPc): nat {
    match pc
    case Start => 3
    case Made => 2
    case Created => 1
    case TakeAlarm => 6
    case ClearFlag => 5
    case Signal => 4
    case DropAlarm => 3
    case ForgetCond => 2
    case Join => 1
    case _ => 0
  }

  /** How many of the steps from i to j are those of the thread that sets and clears a. */
  function CallerSteps(acts: seq<Action>, a: Id, i: nat, j: nat): nat
    requires i <= j <= |acts|
  {
    if i == j then 0 else
      CallerSteps(acts, a, i, j - 1) + if acts[j - 1].CallerStep? && acts[j - 1].a == a then 1 else 0
  }

  /** What one more step makes of a call: it fails at once, or goes on to its end. */
  predicate CallGoesOn(al: Alarm, al': Alarm, ok: bool) {
    if !ok && (al.caller.Start? || al.caller.Made?) then al'.caller == Failed
    else if al.caller.Join? then al'.caller == if ok then Cleared else Unjoined
    else if al.caller.Created? then al'.caller == Armed && al'.cvp
    else CallerLeft(al'.caller) == CallerLeft(al.caller) - 1 && !al'.caller.Failed? && !Returned(al'.caller)
  }

  /** The thread is inside one of the two calls. */
  predicate InCall(al: Alarm) {
    CallerLeft(al.caller) > 0
  }

  lemma CallerNears(p: Process, al: Alarm, a: Id, ok: bool, junk: Err)
    requires InCall(al)
    ensures CallGoesOn(al, StepCaller(p, al, a, ok, junk).1, ok)
  {
  }

  /** Only its own steps, and a new call once it has returned, change where the caller is. */
  lemma OthersLeaveCaller(spurious: bool, p: Process, al: Alarm, x: Action)
    requires !x.New? && !x.CallerStep? && Able(spurious, p, al, x)
    ensures var al' := Step(p, al, x).1;
            if x.CallClear? then !InCall(al) && (al'.caller == al.caller || al'.caller == TakeAlarm)
            else al'.caller == al.caller
  {
    hide StepCaller;
  }

  /** It is so in each of the states from i to j. */
  ghost predicate InCallFrom(states: seq<State>, a: Id, i: nat, j: nat)
    requires i <= j < |states|
  {
    forall k :: i <= k < j ==> a in states[k].alarms && InCall(states[k].alarms[a])
  }

  /** What one step does to a call in progress, its own or another. */
  predicate StepsOn(al: Alarm, al': Alarm, own: bool) {
    if !own then al'.caller == al.caller
    else if InCall(al') then CallerLeft(al'.caller) + 1 == CallerLeft(al.caller)
    else al'.caller.Armed? || Returned(al'.caller)
  }

  lemma StepInCall(spurious: bool, s: State, x: Action, a: Id)
    requires Enabled(spurious, s, x) && a in s.alarms && InCall(s.alarms[a])
    ensures a in Do(s, x).alarms && StepsOn(s.alarms[a], Do(s, x).alarms[a], x.CallerStep? && x.a == a)
  {
    if x.a == a && !x.New? {
      var al := s.alarms[a];
      assert Able(spurious, s.p, al, x);
      if x.CallerStep? { CallerNears(s.p, al, a, x.ok, x.junk); } else { OthersLeaveCaller(spurious, s.p, al, x); }
      hide Step, Able;
    }
  }

  lemma RunInCall(spurious: bool, states: seq<State>, acts: seq<Action>, k: nat, a: Id)
    requires IsRun(spurious, states, acts) && k < |acts| && a in states[k].alarms && InCall(states[k].alarms[a])
    ensures a in states[k + 1].alarms
    ensures StepsOn(states[k].alarms[a], states[k + 1].alarms[a], acts[k].CallerStep? && acts[k].a == a)
  {
    assert Enabled(spurious, states[k], acts[k]) && states[k + 1] == Do(states[k], acts[k]);
    hide InCall, StepsOn;
    StepInCall(spurious, states[k], acts[k], a);
  }

  /** A call that was at al has come to al' by so many steps of its own. */
  predicate Advanced(al: Alarm, al': Alarm, steps: nat) {
    && steps <= CallerLeft(al.caller) <= 6
    && (if InCall(al') then CallerLeft(al'.caller) + steps == CallerLeft(al.caller)
        else al'.caller.Armed? || Returned(al'.caller))
  }

  lemma AdvancedMore(al: Alarm, al': Alarm, al'': Alarm, steps: nat, own: bool)
    requires Advanced(al, al', steps) && InCall(al') && StepsOn(al', al'', own)
    ensures Advanced(al, al'', steps + if own then 1 else 0)
  {
  }

  lemma NotAdvanced(al: Alarm)
    requires InCall(al)
    ensures Advanced(al, al, 0)
  {
  }

  /**
    A call that is in progress from i to j takes its steps one after the other, at most six of them, and
    returns in one of the four ways; it never waits but for a mutex and in the join.
   */
  lemma {:induction false} CallerRuns(spurious: bool, states: seq<State>, acts: seq<Action>, i: nat, j: nat, a: Id)
    requires IsRun(spurious, states, acts) && i <= j < |states| && a in states[i].alarms && InCall(states[i].alarms[a])
    requires InCallFrom(states, a, i, j)
    ensures a in states[j].alarms && Advanced(states[i].alarms[a], states[j].alarms[a], CallerSteps(acts, a, i, j))
  {
    hide Enabled, Do, InCall, Advanced, StepsOn;
    NotAdvanced(states[i].alarms[a]);
    if i < j {
      CallerRuns(spurious, states, acts, i, j - 1, a);
      assert InCall(states[j - 1].alarms[a]);
      RunInCall(spurious, states, acts, j - 1, a);
      AdvancedMore(states[i].alarms[a], states[j - 1].alarms[a], states[j].alarms[a],
                   CallerSteps(acts, a, i, j - 1), acts[j - 1].CallerStep? && acts[j - 1].a == a);
    }
  }

  /** Where a thread has come to a join it returns 0 exactly if the join succeeds, and -1 otherwise. */
  lemma JoinDecides(spurious: bool, states: seq<State>, acts: seq<Action>, i: nat, a: Id)
    requires IsRun(spurious, states, acts) && i < |acts| && acts[i].CallerStep? && acts[i].a == a
    requires a in states[i].alarms && states[i].alarms[a].caller.Join?
    ensures a in states[i + 1].alarms
    ensures states[i + 1].alarms[a].caller == if acts[i].ok then Cleared else Unjoined
    ensures acts[i].ok ==> states[i].alarms[a].helper.Gone?
  {
    assert Enabled(spurious, states[i], acts[i]) && states[i + 1] == Do(states[i], acts[i]);
  }

  // ---------------------------------------------------------------- fatal errors

  /** An interrupted wait is never the outcome: the helper waits again. */
  predicate NotInterrupted(al: Alarm) {
    && (al.helper.Settle? && al.flag ==> al.err != Interrupted)
    && (al.helper.Unlock? || al.helper.Decide? ==> al.err != Interrupted)
  }

  lemma NotInterruptedStep(spurious: bool, p: Process, al: Alarm, x: Action)
    requires Started(al) && NotInterrupted(al) && !x.New? && Able(spurious, p, al, x)
    ensures NotInterrupted(Step(p, al, x).1)
  {
  }

  lemma {:induction false} NeverInterrupted(spurious: bool, states: seq<State>, acts: seq<Action>, i: nat, a: Id)
    requires IsRun(spurious, states, acts) && i < |states| && a in states[i].alarms
    ensures NotInterrupted(states[i].alarms[a])
  {
    if i > 0 {
      var s, x := states[i - 1], acts[i - 1];
      assert Enabled(spurious, s, x) && states[i] == Do(s, x);
      if a in s.alarms {
        NeverInterrupted(spurious, states, acts, i - 1, a);
        SentHolds(spurious, states, acts, i - 1, a);
        hide HasTimedOut, SentInv;
        if x.a == a { NotInterruptedStep(spurious, s.p, s.alarms[a], x); }
      }
    }
  }

  /** The wait has failed, the second wait has come to its end in time, or a system call fails. */
  predicate Fails(al: Alarm, ok: bool) {
    || (al.helper.Decide? && (al.err == OtherErr || (al.err == TimedOut && al.helper.second)))
    || ((al.helper.Install? || al.helper.Kill?) && !ok)
  }

  lemma FatalStep(p: Process, al: Alarm, a: Id, ok: bool)
    requires !p.fatal && NotInterrupted(al)
    ensures StepHelper(p, al, a, ok).0.fatal <==> Fails(al, ok)
  {
  }

  /** In every run a step ends the process exactly if it is a helper's and one of these has happened. */
  lemma FatalIff(spurious: bool, states: seq<State>, acts: seq<Action>, i: nat)
    requires IsRun(spurious, states, acts) && i < |acts|
    ensures !states[i].p.fatal
    ensures states[i + 1].p.fatal <==> && acts[i].HelperStep? && acts[i].a in states[i].alarms
                                       && Fails(states[i].alarms[acts[i].a], acts[i].ok)
  {
    var s, x := states[i], acts[i];
    assert Enabled(spurious, s, x) && states[i + 1] == Do(s, x);
    if x.HelperStep? {
      NeverInterrupted(spurious, states, acts, i, x.a);
      FatalStep(s.p, s.alarms[x.a], x.a, x.ok);
    }
    hide IsRun, NotInterrupted, Fails, StepHelper;
  }

  // ---------------------------------------------------------------- runs

  const QUIET := Process(0, 0, None, None, false)
  const RINGING := Process(0, 1, None, Some(0), false)   // the action of alarm 0 is installed

  /** One more step of the only alarm there is. */
  lemma Continue(spurious: bool, states: seq<State>, acts: seq<Action>, al: Alarm, x: Action, al': Alarm, p': Process)
    returns (states': seq<State>, acts': seq<Action>)
    requires IsRun(spurious, states, acts) && states[|acts|] == State(states[|acts|].p, map[0 := al])
    requires !states[|acts|].p.fatal && !x.New? && x.a == 0 && Able(spurious, states[|acts|].p, al, x)
    requires Step(states[|acts|].p, al, x) == (p', al')
    ensures IsRun(spurious, states', acts') && states'[|acts'|] == State(p', map[0 := al'])
  {
    states', acts' := states + [State(p', map[0 := al'])], acts + [x];
    forall i | 0 <= i < |acts'|
      ensures Enabled(spurious, states'[i], acts'[i]) && states'[i + 1] == Do(states'[i], acts'[i])
    {
      if i < |acts| { assert Enabled(spurious, states[i], acts[i]) && states[i + 1] == Do(states[i], acts[i]); }
    }
  }

  /** An armed alarm whose helper sleeps in its first wait. */
  lemma AlarmArmed(spurious: bool) returns (states: seq<State>, acts: seq<Action>)
    ensures IsRun(spurious, states, acts)
    ensures states[|acts|].p == QUIET
    ensures states[|acts|].alarms
            == map[0 := Alarm(Armed, Asleep(false), true, true, Live, OtherErr, 1, 0, 0, 0, false)]
  {
    var al0 := Alarm(Start, NoThread, false, false, Unmade, OtherErr, 1, 0, 0, 0, false);
    states, acts := [State(QUIET, map[]), State(QUIET, map[0 := al0])], [New(0, 1)];
    var p, held := QUIET, QUIET.(alarmMtx := Some(Helper(0)));
    var al1 := al0.(caller := Made, flag := true, cond := Live);
    states, acts := Continue(spurious, states, acts, al0, CallerStep(0, true, OtherErr), al1, p);
    var al2 := al1.(caller := Created, helper := WantAlarm(false));
    states, acts := Continue(spurious, states, acts, al1, CallerStep(0, true, OtherErr), al2, p);
    var al3 := al2.(caller := Armed, cvp := true);
    states, acts := Continue(spurious, states, acts, al2, CallerStep(0, true, OtherErr), al3, p);
    var al4 := al3.(helper := TestFlag(false));
    states, acts := Continue(spurious, states, acts, al3, HelperStep(0, true), al4, held);
    var al5 := al4.(helper := Asleep(false));
    states, acts := Continue(spurious, states, acts, al4, HelperStep(0, true), al5, p);
  }

  /** tet_clr_alarm() begins: the flag is cleared under the mutex. */
  lemma ClearsFlag(states: seq<State>, acts: seq<Action>, p: Process, al: Alarm)
    returns (states': seq<State>, acts': seq<Action>)
    requires IsRun(false, states, acts) && states[|acts|] == State(p, map[0 := al])
    requires !p.fatal && p.alarmMtx == None && al.caller.Armed? && al.cvp
    ensures IsRun(false, states', acts')
    ensures states'[|acts'|].p == p.(alarmMtx := Some(Caller(0)))
    ensures states'[|acts'|].alarms == map[0 := al.(caller := Signal, flag := false)]
  {
    hide IsRun;
    var his := p.(alarmMtx := Some(Caller(0)));
    var al1 := al.(caller := TakeAlarm);
    states', acts' := Continue(false, states, acts, al, CallClear(0), al1, p);
    var al2 := al1.(caller := ClearFlag);
    states', acts' := Continue(false, states', acts', al1, CallerStep(0, true, OtherErr), al2, his);
    var al3 := al2.(caller := Signal, flag := false);
    states', acts' := Continue(false, states', acts', al2, CallerStep(0, true, OtherErr), al3, his);
  }

  /** It wakes the helper and goes to join it. */
  lemma ClearsAlarm(states: seq<State>, acts: seq<Action>, p: Process, al: Alarm)
    returns (states': seq<State>, acts': seq<Action>)
    requires IsRun(false, states, acts) && states[|acts|] == State(p, map[0 := al])
    requires !p.fatal && p.alarmMtx == None && al.caller.Armed? && al.cvp && al.helper.Asleep? && al.cond == Live
    ensures IsRun(false, states', acts')
    ensures states'[|acts'|].p == p
    ensures states'[|acts'|].alarms
            == map[0 := al.(caller := Join, helper := Waking(al.helper.second),
                            flag := false, cvp := false, err := NoErr)]
  {
    hide IsRun;
    states', acts' := ClearsFlag(states, acts, p, al);
    var his := p.(alarmMtx := Some(Caller(0)));
    var al3 := al.(caller := Signal, flag := false);
    var al4 := al3.(caller := DropAlarm, helper := Waking(al.helper.second), err := NoErr);
    states', acts' := Continue(false, states', acts', al3, CallerStep(0, true, OtherErr), al4, his);
    var al5 := al4.(caller := ForgetCond);
    states', acts' := Continue(false, states', acts', al4, CallerStep(0, true, OtherErr), al5, p);
    var al6 := al5.(caller := Join, cvp := false);
    states', acts' := Continue(false, states', acts', al5, CallerStep(0, true, OtherErr), al6, p);
  }

  /** The time is up in the first wait. */
  lemma TimeIsUp() returns (states: seq<State>, acts: seq<Action>)
    ensures IsRun(false, states, acts)
    ensures states[|acts|].p == QUIET
    ensures states[|acts|].alarms == map[0 := Alarm(Armed, TakeSig, true, true, Live, TimedOut, 1, 0, 0, 0, false)]
  {
    hide IsRun;
    states, acts := AlarmArmed(false);
    var p, mine := QUIET, QUIET.(alarmMtx := Some(Helper(0)));
    var al := Alarm(Armed, Asleep(false), true, true, Live, OtherErr, 1, 0, 0, 0, false);
    var al1 := al.(helper := Waking(false), err := TimedOut);
    states, acts := Continue(false, states, acts, al, Wake(0, TimedOut), al1, p);
    var al2 := al1.(helper := Settle(false));
    states, acts := Continue(false, states, acts, al1, HelperStep(0, true), al2, mine);
    var al3 := al2.(helper := Unlock(false));
    states, acts := Continue(false, states, acts, al2, HelperStep(0, true), al3, mine);
    var al4 := al3.(helper := Decide(false));
    states, acts := Continue(false, states, acts, al3, HelperStep(0, true), al4, p);
    var al5 := al4.(helper := TakeSig);
    states, acts := Continue(false, states, acts, al4, HelperStep(0, true), al5, p);
  }

  /** The action is installed and the signal sent. */
  lemma SignalIsSent() returns (states: seq<State>, acts: seq<Action>)
    ensures IsRun(false, states, acts)
    ensures states[|acts|].p == RINGING
    ensures states[|acts|].alarms == map[0 := Alarm(Armed, Asleep(true), true, true, Live, TimedOut, 1, 0, 1, 0, false)]
  {
    hide IsRun;
    states, acts := TimeIsUp();
    var locked, p := QUIET.(sigalrmMtx := Some(0)), RINGING;
    var al := Alarm(Armed, TakeSig, true, true, Live, TimedOut, 1, 0, 0, 0, false);
    var al1 := al.(helper := Install);
    states, acts := Continue(false, states, acts, al, HelperStep(0, true), al1, locked);
    var al2 := al1.(helper := Kill);
    states, acts := Continue(false, states, acts, al1, HelperStep(0, true), al2, p);
    var al3 := al2.(helper := WantAlarm(true), kills := 1);
    states, acts := Continue(false, states, acts, al2, HelperStep(0, true), al3, p);
    var al4 := al3.(helper := TestFlag(true));
    states, acts := Continue(false, states, acts, al3, HelperStep(0, true), al4, p.(alarmMtx := Some(Helper(0))));
    var al5 := al4.(helper := Asleep(true));
    states, acts := Continue(false, states, acts, al4, HelperStep(0, true), al5, p);
  }

  /** The caller clears the alarm and goes to join the helper. */
  lemma ClearSignals() returns (states: seq<State>, acts: seq<Action>)
    ensures IsRun(false, states, acts)
    ensures states[|acts|].p == RINGING
    ensures states[|acts|].alarms == map[0 := Alarm(Join, Waking(true), false, false, Live, NoErr, 1, 0, 1, 0, false)]
  {
    hide IsRun;
    states, acts := SignalIsSent();
    var al := Alarm(Armed, Asleep(true), true, true, Live, TimedOut, 1, 0, 1, 0, false);
    states, acts := ClearsAlarm(states, acts, RINGING, al);
  }

  /** The helper finds the flag clear. */
  lemma SecondWaitEnds() returns (states: seq<State>, acts: seq<Action>)
    ensures IsRun(false, states, acts)
    ensures states[|acts|].p == RINGING
    ensures states[|acts|].alarms == map[0 := Alarm(Join, Decide(true), false, false, Live, NoErr, 1, 0, 1, 0, false)]
  {
    hide IsRun;
    states, acts := ClearSignals();
    var p, mine := RINGING, RINGING.(alarmMtx := Some(Helper(0)));
    var al := Alarm(Join, Waking(true), false, false, Live, NoErr, 1, 0, 1, 0, false);
    var al1 := al.(helper := Settle(true));
    states, acts := Continue(false, states, acts, al, HelperStep(0, true), al1, mine);
    var al2 := al1.(helper := Unlock(true));
    states, acts := Continue(false, states, acts, al1, HelperStep(0, true), al2, mine);
    var al3 := al2.(helper := Decide(true));
    states, acts := Continue(false, states, acts, al2, HelperStep(0, true), al3, p);
  }

  /** It restores the old action. */
  lemma ActionRestored() returns (states: seq<State>, acts: seq<Action>)
    ensures IsRun(false, states, acts)
    ensures states[|acts|].p == QUIET
    ensures states[|acts|].alarms == map[0 := Alarm(Join, Destroy, false, false, Live, NoErr, 1, 0, 1, 0, false)]
  {
    hide IsRun;
    states, acts := SecondWaitEnds();
    var p := RINGING;
    var al := Alarm(Join, Decide(true), false, false, Live, NoErr, 1, 0, 1, 0, false);
    var al1 := al.(helper := Restore);
    states, acts := Continue(false, states, acts, al, HelperStep(0, true), al1, p);
    var al2 := al1.(helper := DropSig);
    states, acts := Continue(false, states, acts, al1, HelperStep(0, true), al2, p.(disposition := 0));
    var al3 := al2.(helper := Destroy);
    states, acts := Continue(false, states, acts, al2, HelperStep(0, true), al3, QUIET);
  }

  /** A run in which the alarm goes off: one SIGALRM has been sent when tet_clr_alarm() returns. */
  lemma AlarmGoesOff() returns (states: seq<State>, acts: seq<Action>)
    ensures IsRun(false, states, acts)
    ensures states[|acts|].p == QUIET
    ensures states[|acts|].alarms == map[0 := Alarm(Cleared, Gone, false, false, Freed, NoErr, 1, 0, 1, 1, false)]
  {
    hide IsRun;
    states, acts := ActionRestored();
    var p := QUIET;
    var al := Alarm(Join, Destroy, false, false, Live, NoErr, 1, 0, 1, 0, false);
    var al1 := al.(helper := Free, cond := Destroyed);
    states, acts := Continue(false, states, acts, al, HelperStep(0, true), al1, p);
    var al2 := al1.(helper := Gone, cond := Freed, frees := 1);
    states, acts := Continue(false, states, acts, al1, HelperStep(0, true), al2, p);
    var al3 := al2.(caller := Cleared);
    states, acts := Continue(false, states, acts, al2, CallerStep(0, true, OtherErr), al3, p);
  }

  /** The caller clears the alarm while the helper is still in its first wait. */
  lemma ClearedInTime() returns (states: seq<State>, acts: seq<Action>)
    ensures IsRun(false, states, acts)
    ensures states[|acts|].p == QUIET
    ensures states[|acts|].alarms == map[0 := Alarm(Join, Waking(false), false, false, Live, NoErr, 1, 0, 0, 0, false)]
  {
    hide IsRun;
    states, acts := AlarmArmed(false);
    var al := Alarm(Armed, Asleep(false), true, true, Live, OtherErr, 1, 0, 0, 0, false);
    states, acts := ClearsAlarm(states, acts, QUIET, al);
  }

  lemma FirstWaitEnds() returns (states: seq<State>, acts: seq<Action>)
    ensures IsRun(false, states, acts)
    ensures states[|acts|].p == QUIET
    ensures states[|acts|].alarms == map[0 := Alarm(Join, Destroy, false, false, Live, NoErr, 1, 0, 0, 0, false)]
  {
    hide IsRun;
    states, acts := ClearedInTime();
    var p, mine := QUIET, QUIET.(alarmMtx := Some(Helper(0)));
    var al := Alarm(Join, Waking(false), false, false, Live, NoErr, 1, 0, 0, 0, false);
    var al1 := al.(helper := Settle(false));
    states, acts := Continue(false, states, acts, al, HelperStep(0, true), al1, mine);
    var al2 := al1.(helper := Unlock(false));
    states, acts := Continue(false, states, acts, al1, HelperStep(0, true), al2, mine);
    var al3 := al2.(helper := Decide(false));
    states, acts := Continue(false, states, acts, al2, HelperStep(0, true), al3, p);
    var al4 := al3.(helper := Destroy);
    states, acts := Continue(false, states, acts, al3, HelperStep(0, true), al4, p);
  }

  /** A run in which the alarm is cleared in time: no SIGALRM has been sent when tet_clr_alarm() returns. */
  lemma AlarmStaysSilent() returns (states: seq<State>, acts: seq<Action>)
    ensures IsRun(false, states, acts)
    ensures states[|acts|].p == QUIET
    ensures states[|acts|].alarms == map[0 := Alarm(Cleared, Gone, false, false, Freed, NoErr, 1, 0, 0, 1, false)]
  {
    hide IsRun;
    states, acts := FirstWaitEnds();
    var p := QUIET;
    var al := Alarm(Join, Destroy, false, false, Live, NoErr, 1, 0, 0, 0, false);
    var al1 := al.(helper := Free, cond := Destroyed);
    states, acts := Continue(false, states, acts, al, HelperStep(0, true), al1, p);
    var al2 := al1.(helper := Gone, cond := Freed, frees := 1);
    states, acts := Continue(false, states, acts, al1, HelperStep(0, true), al2, p);
    var al3 := al2.(caller := Cleared);
    states, acts := Continue(false, states, acts, al2, CallerStep(0, true, OtherErr), al3, p);
  }

  /** A run in which the first wait is interrupted: the helper waits again. */
  lemma InterruptedWaitsAgain() returns (states: seq<State>, acts: seq<Action>)
    ensures IsRun(false, states, acts)
    ensures states[|acts|].p == QUIET
    ensures states[|acts|].alarms
            == map[0 := Alarm(Armed, Asleep(false), true, true, Live, Interrupted, 1, 0, 0, 0, false)]
  {
    hide IsRun;
    states, acts := AlarmArmed(false);
    var p, mine := QUIET, QUIET.(alarmMtx := Some(Helper(0)));
    var al := Alarm(Armed, Asleep(false), true, true, Live, OtherErr, 1, 0, 0, 0, false);
    var al1 := al.(helper := Waking(false), err := Interrupted);
    states, acts := Continue(false, states, acts, al, Wake(0, Interrupted), al1, p);
    var al2 := al1.(helper := TestFlag(false));
    states, acts := Continue(false, states, acts, al1, HelperStep(0, true), al2, mine);
    var al3 := al2.(helper := Asleep(false));
    states, acts := Continue(false, states, acts, al2, HelperStep(0, true), al3, p);
  }

  /** A run in which it fails: the process ends with an error. */
  lemma FailedWaitIsFatal() returns (states: seq<State>, acts: seq<Action>)
    ensures IsRun(false, states, acts)
    ensures states[|acts|].p == QUIET.(fatal := true)
    ensures states[|acts|].alarms
            == map[0 := Alarm(Armed, Decide(false), true, true, Live, OtherErr, 1, 0, 0, 0, false)]
  {
    hide IsRun;
    states, acts := AlarmArmed(false);
    var p, mine := QUIET, QUIET.(alarmMtx := Some(Helper(0)));
    var al := Alarm(Armed, Asleep(false), true, true, Live, OtherErr, 1, 0, 0, 0, false);
    var al1 := al.(helper := Waking(false));
    states, acts := Continue(false, states, acts, al, Wake(0, OtherErr), al1, p);
    var al2 := al1.(helper := Settle(false));
    states, acts := Continue(false, states, acts, al1, HelperStep(0, true), al2, mine);
    var al3 := al2.(helper := Unlock(false));
    states, acts := Continue(false, states, acts, al2, HelperStep(0, true), al3, mine);
    var al4 := al3.(helper := Decide(false));
    states, acts := Continue(false, states, acts, al3, HelperStep(0, true), al4, p);
    states, acts := Continue(false, states, acts, al4, HelperStep(0, true), al4, p.(fatal := true));
  }

  // ---------------------------------------------------------------- spurious wakeups

  /** The wait returns 0 although the flag is still set. */
  lemma WokenUnsignalled() returns (states: seq<State>, acts: seq<Action>)
    ensures IsRun(true, states, acts)
    ensures states[|acts|].p == QUIET
    ensures states[|acts|].alarms == map[0 := Alarm(Armed, Decide(false), true, true, Live, NoErr, 1, 0, 0, 0, false)]
  {
    states, acts := AlarmArmed(true);
    var p, held := QUIET, QUIET.(alarmMtx := Some(Helper(0)));
    var al5 := Alarm(Armed, Asleep(false), true, true, Live, OtherErr, 1, 0, 0, 0, false);
    var al6 := al5.(helper := Waking(false), err := NoErr);
    states, acts := Continue(true, states, acts, al5, Wake(0, NoErr), al6, p);
    var al7 := al6.(helper := Settle(false));
    states, acts := Continue(true, states, acts, al6, HelperStep(0, true), al7, held);
    var al8 := al7.(helper := Unlock(false));
    states, acts := Continue(true, states, acts, al7, HelperStep(0, true), al8, held);
    var al9 := al8.(helper := Decide(false));
    states, acts := Continue(true, states, acts, al8, HelperStep(0, true), al9, p);
  }

  /** So the helper frees the condition variable of an alarm that is still armed. */
  lemma FreedWhileArmed() returns (states: seq<State>, acts: seq<Action>)
    ensures IsRun(true, states, acts)
    ensures states[|acts|].p == QUIET
    ensures states[|acts|].alarms == map[0 := Alarm(Armed, Gone, true, true, Freed, NoErr, 1, 0, 0, 1, false)]
  {
    states, acts := WokenUnsignalled();
    var p, held := QUIET, QUIET.(alarmMtx := Some(Helper(0)));
    var al9 := Alarm(Armed, Decide(false), true, true, Live, NoErr, 1, 0, 0, 0, false);
    var al10 := al9.(helper := Destroy);
    states, acts := Continue(true, states, acts, al9, HelperStep(0, true), al10, p);
    var al11 := al10.(helper := Free, cond := Destroyed);
    states, acts := Continue(true, states, acts, al10, HelperStep(0, true), al11, p);
    var al12 := al11.(helper := Gone, cond := Freed, frees := 1);
    states, acts := Continue(true, states, acts, al11, HelperStep(0, true), al12, p);
  }

  /** tet_clr_alarm() then signals the freed variable. */
  lemma SpuriousWakeupMisuses() returns (states: seq<State>, acts: seq<Action>)
    ensures IsRun(true, states, acts)
    ensures states[|acts|] == State(QUIET.(alarmMtx := Some(Caller(0))),
                                    map[0 := Alarm(DropAlarm, Gone, false, true, Freed, NoErr, 1, 0, 0, 1, true)])
    ensures states[|acts|].alarms[0].misused
  {
    states, acts := FreedWhileArmed();
    var p, held := QUIET, QUIET.(alarmMtx := Some(Caller(0)));
    var al12 := Alarm(Armed, Gone, true, true, Freed, NoErr, 1, 0, 0, 1, false);
    var al13 := al12.(caller := TakeAlarm);
    states, acts := Continue(true, states, acts, al12, CallClear(0), al13, p);
    var al14 := al13.(caller := ClearFlag);
    states, acts := Continue(true, states, acts, al13, CallerStep(0, true, OtherErr), al14, held);
    var al15 := al14.(caller := Signal, flag := false);
    states, acts := Continue(true, states, acts, al14, CallerStep(0, true, OtherErr), al15, held);
    var al16 := al15.(caller := DropAlarm, misused := true);
    states, acts := Continue(true, states, acts, al15, CallerStep(0, true, OtherErr), al16, held);
  }

  ghost predicate Safe(spurious: bool) {
    forall states: seq<State>, acts: seq<Action>, i: nat, a: Id ::
      IsRun(spurious, states, acts) && i < |states| && a in states[i].alarms ==> !states[i].alarms[a].misused
  }

  /** The protocol uses its condition variables correctly exactly when no wait returns 0 unsignalled. */
  lemma SafeIffNoSpuriousWakeups(spurious: bool)
    ensures Safe(spurious) <==> !spurious
  {
    if spurious {
      var states, acts := SpuriousWakeupMisuses();
    } else {
      forall states: seq<State>, acts: seq<Action>, i: nat, a: Id
        | IsRun(false, states, acts) && i < |states| && a in states[i].alarms
        ensures !states[i].alarms[a].misused
      {
        NoMisuse(states, acts, i, a);
      }
    }
  }
}

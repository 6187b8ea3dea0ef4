/**
  The five library mutexes and every code path that takes them, as a step system over any number
  of threads.  The documented rule is that code holding several mutexes takes them in the order of
  tet_mtx_lock(); here each path is followed lock by lock, including the release and reacquisition
  inside timed waits, and the error reports that are made under a mutex.  A report locks the API
  lock, the first of all, so it is the one path that breaks the rule: circles of waits are possible,
  and exactly when one of them is stopped there.
 */
module MutexOrder {
  import opened Options

  type Tid = nat

  datatype Mutex = Top | ThrTab | ThrWait | SigAlrm | Alarm

  /** The position of a mutex in tet_mtx_lock(). */
  function Rank(m: Mutex): nat {
    match m
    case Top => 0
    case ThrTab => 1
    case ThrWait => 2
    case SigAlrm => 3
    case Alarm => 4
  }

  const ALL: seq<Mutex> := [Top, ThrTab, ThrWait, SigAlrm, Alarm]

  /** Where errors are reported with mutexes held: tet_cln_threads(), alrm_thr() and tet_sp2(). */
  datatype Site = Table | Signal | Everything

  predicate HeldAtSite(site: Site, m: Mutex) {
    match site
    case Table => m == ThrTab
    case Signal => m == SigAlrm
    case Everything => true
  }

  /**
    Where a thread is.  `Want...` is about to lock; `Has...` holds.  A pc also says which routine
    the thread is in, because that decides what it holds and what it may do next.
   */
  datatype Pc =
    | Out                          // in none of the routines below
    | WantTop                      // tet_api_lock(), outermost call
    | WantTab | HasTab             // ttadd(), tet_pthread_join(), tet_pthread_detach()
    | WantClean | HasClean         // tet_cln_threads(): the table is locked throughout
    | Joining(target: Tid)         //   TET_THR_JOIN of one entry
    | WantJoined | HasJoined       //   joined = 1 under tet_thrwait_mtx
    | WantWatch | HasWatch         // cln_thr2(): either of its two timed waits
    | Watching | WantWatchAgain    //   asleep, then reacquiring
    | WantClear | HasClear         // tet_clr_alarm()
    | WantFirst | HasFirst         // alrm_thr(), first wait
    | FirstAsleep | WantFirstAgain
    | WantSig | HasSig             //   SIGALRM action installed
    | WantSecond | HasSecond       //   second wait, nested inside tet_sigalrm_mtx
    | SecondAsleep | WantSecondAgain
    | Restoring                    //   second wait over, still under tet_sigalrm_mtx
    | Forking(taken: nat)          // tet_mtx_lock(): the first `taken` mutexes are held
    | Unforking(left: nat)         // tet_mtx_unlock(): the first `left` mutexes are still held
    | WantReport(site: Site)       // tet_merror(): about to lock the API lock, if not inside it already
    | HasReport(site: Site)        //   inside it
    | Ended(site: Site)            //   fatal() is ending the process

  /** `depth` counts the thread's open API_LOCKs. */
  datatype Thread = Thread(pc: Pc, depth: nat)
  datatype State = State(owner: map<Mutex, Tid>, threads: map<Tid, Thread>)

  /** The mutex a thread at this pc is trying to lock. */
  function Wants(pc: Pc): Option<Mutex> {
    match pc
    case WantTop | WantReport(_) => Some(Top)
    case WantTab | WantClean => Some(ThrTab)
    case WantJoined | WantWatch | WantWatchAgain => Some(ThrWait)
    case WantSig => Some(SigAlrm)
    case WantClear | WantFirst | WantFirstAgain | WantSecond | WantSecondAgain => Some(Alarm)
    case Forking(k) => if k < 5 then Some(ALL[k]) else None
    case _ => None
  }

  /** The thread's step once it has what it wants, if anything: its next pc, and the mutex it gives up. */
  datatype Move = Move(pc: Pc, unlock: Option<Mutex>)

  predicate Permits(pc: Pc, m: Move) {
    match pc
    case Out =>
      m.unlock == None
      && (m.pc.WantTab? || m.pc.WantClean? || m.pc.WantWatch? || m.pc.WantClear? || m.pc.WantFirst?)
    case WantTop | WantReport(_) | HasReport(_) | Ended(_) => false
    case WantTab => m == Move(HasTab, None)
    case HasTab => m == Move(Out, Some(ThrTab))
    case WantClean => m == Move(HasClean, None)
    case HasClean =>
      (m.unlock == None && (m.pc.Joining? || m.pc == WantJoined)) || m == Move(Out, Some(ThrTab))
    case Joining(_) => m == Move(WantJoined, None) || m == Move(HasClean, None)
    case WantJoined => m == Move(HasJoined, None)
    case HasJoined => m == Move(HasClean, Some(ThrWait))
    case WantWatch => m == Move(HasWatch, None)
    case HasWatch => m == Move(Watching, Some(ThrWait)) || m == Move(Out, Some(ThrWait))
    case Watching => m == Move(WantWatchAgain, None)
    case WantWatchAgain => m == Move(HasWatch, None)
    case WantClear => m == Move(HasClear, None)
    case HasClear => m == Move(Out, Some(Alarm))
    case WantFirst => m == Move(HasFirst, None)
    case HasFirst => m.unlock == Some(Alarm) && (m.pc.FirstAsleep? || m.pc.Out? || m.pc.WantSig?)
    case FirstAsleep => m == Move(WantFirstAgain, None)
    case WantFirstAgain => m == Move(HasFirst, None)
    case WantSig => m == Move(HasSig, None)
    case HasSig => m == Move(WantSecond, None)
    case WantSecond => m == Move(HasSecond, None)
    case HasSecond => m.unlock == Some(Alarm) && (m.pc == SecondAsleep || m.pc == Restoring)
    case SecondAsleep => m == Move(WantSecondAgain, None)
    case WantSecondAgain => m == Move(HasSecond, None)
    case Restoring => m == Move(Out, Some(SigAlrm))
    case Forking(k) => m == if k < 5 then Move(Forking(k + 1), None) else Move(Unforking(5), None)
    case Unforking(k) => if 0 < k <= 5 then m == Move(Unforking(k - 1), Some(ALL[k - 1])) else m == Move(Out, None)
  }

  /** Thread creation, sigaction(), TET_THR_KILL(), the second wait and pipe() may fail where they are called. */
  function ReportsFrom(pc: Pc): Option<Site> {
    match pc
    case HasClean => Some(Table)
    case HasSig | Restoring => Some(Signal)
    case Forking(k) => if k == 5 then Some(Everything) else None
    case _ => None
  }

  datatype Action =
    | ApiLock(t: Tid)        // nested calls of tet_api_lock() only count
    | GotTop(t: Tid)
    | ApiUnlock(t: Tid)
    | Fork(t: Tid)
    | Go(t: Tid, m: Move)
    | Report(t: Tid)         // error() or fatal() under a mutex
    | GotReport(t: Tid)
    | EndReport(t: Tid)
    | Spawn(t: Tid)
    | Exit(t: Tid)

  predicate Enabled(s: State, a: Action) {
    (if a.Spawn? then a.t !in s.threads else a.t in s.threads) &&
    match a
    case ApiLock(t) => s.threads[t].pc == Out
    case GotTop(t) => s.threads[t].pc == WantTop && Top !in s.owner
    case ApiUnlock(t) => s.threads[t].pc == Out && s.threads[t].depth > 0
    case Fork(t) => s.threads[t] == Thread(Out, 0)
    case Go(t, m) =>
      && Permits(s.threads[t].pc, m)
      && (Wants(s.threads[t].pc).Some? ==> Wants(s.threads[t].pc).value !in s.owner)
    case Report(t) => ReportsFrom(s.threads[t].pc).Some?
    case GotReport(t) => s.threads[t].pc.WantReport? && Top !in s.owner
    case EndReport(t) => s.threads[t].pc.HasReport? && s.threads[t].depth > 0
    case Spawn(t) => true
    case Exit(t) => s.threads[t] == Thread(Out, 0)
  }

  /** t locks `got` and then unlocks `lost`. */
  function Transfer(owner: map<Mutex, Tid>, t: Tid, got: Option<Mutex>, lost: Option<Mutex>): map<Mutex, Tid> {
    var owner' := match got case Some(m) => owner[m := t] case None => owner;
    match lost case Some(m) => owner' - {m} case None => owner'
  }

  function Do(s: State, a: Action): State
    requires Enabled(s, a)
  {
    match a
    case ApiLock(t) =>
      var th := s.threads[t];
      s.(threads := s.threads[t := if th.depth > 0 then th.(depth := th.depth + 1) else th.(pc := WantTop)])
    case GotTop(t) => State(s.owner[Top := t], s.threads[t := Thread(Out, 1)])
    case ApiUnlock(t) =>
      var th := s.threads[t];
      State(if th.depth == 1 then s.owner - {Top} else s.owner, s.threads[t := th.(depth := th.depth - 1)])
    case Report(t) =>
      var th, site := s.threads[t], ReportsFrom(s.threads[t].pc).value;
      s.(threads := s.threads[t := if th.depth > 0 then Thread(HasReport(site), th.depth + 1)
                                   else Thread(WantReport(site), 0)])
    case GotReport(t) => State(s.owner[Top := t], s.threads[t := Thread(HasReport(s.threads[t].pc.site), 1)])
    case EndReport(t) =>
      var th := s.threads[t];
      State(if th.depth == 1 then s.owner - {Top} else s.owner,
            s.threads[t := Thread(Ended(th.pc.site), th.depth - 1)])
    case Fork(t) => s.(threads := s.threads[t := Thread(Forking(0), 0)])
    case Go(t, m) =>
      var th := s.threads[t];
      State(Transfer(s.owner, t, Wants(th.pc), m.unlock), s.threads[t := th.(pc := m.pc)])
    case Spawn(t) => s.(threads := s.threads[t := Thread(Out, 0)])
    case Exit(t) => s.(threads := s.threads - {t})
  }

  ghost predicate IsRun(states: seq<State>, acts: seq<Action>) {
    && |states| == |acts| + 1
    && states[0] == State(map[], map[])
    && forall i {:trigger acts[i]} :: 0 <= i < |acts| ==>
         Enabled(states[i], acts[i]) && states[i + 1] == Do(states[i], acts[i])
  }

  /** What the code of a routine holds at a pc, apart from the API lock around it. */
  predicate HoldsAt(pc: Pc, m: Mutex) {
    match pc
    case HasTab | HasClean | Joining(_) | WantJoined => m == ThrTab
    case HasJoined => m == ThrTab || m == ThrWait
    case HasWatch => m == ThrWait
    case HasClear | HasFirst => m == Alarm
    case HasSig | WantSecond | SecondAsleep | WantSecondAgain | Restoring => m == SigAlrm
    case HasSecond => m == SigAlrm || m == Alarm
    case Forking(k) => Rank(m) < k
    case Unforking(k) => Rank(m) < k
    case WantReport(site) => HeldAtSite(site, m)
    case HasReport(site) => HeldAtSite(site, m)
    case Ended(site) => HeldAtSite(site, m)
    case _ => false
  }

  predicate Holds(th: Thread, m: Mutex) {
    HoldsAt(th.pc, m) || (m == Top && th.depth > 0)
  }

  predicate ThreadOk(th: Thread) {
    && (th.pc.WantTop? || th.pc.WantReport? || th.pc.Forking? || th.pc.Unforking? ==> th.depth == 0)
    && (th.pc.HasReport? ==> th.depth > 0)
    && (th.pc.HasReport? || th.pc.Ended? ==> th.pc.site != Everything)
    && (th.pc.Forking? ==> th.pc.taken <= 5)
    && (th.pc.Unforking? ==> th.pc.left <= 5)
  }

  /** A mutex is owned by a thread exactly when that thread's code holds it there. */
  ghost predicate HeldIsOwned(s: State) {
    forall t, m :: t in s.threads ==> (Holds(s.threads[t], m) <==> (m in s.owner && s.owner[m] == t))
  }

  ghost predicate Inv(s: State) {
    && (forall t :: t in s.threads ==> ThreadOk(s.threads[t]))
    && (forall m :: m in s.owner ==> s.owner[m] in s.threads)
    && HeldIsOwned(s)
  }

  /** Along every move of every routine, what is held grows by what was wanted and shrinks by what is given up. */
  lemma MoveHolds(pc: Pc, m: Move, x: Mutex)
    requires Permits(pc, m) && ThreadOk(Thread(pc, 0))
    ensures HoldsAt(m.pc, x) <==> (HoldsAt(pc, x) || Wants(pc) == Some(x)) && m.unlock != Some(x)
    ensures m.unlock == Some(x) ==> HoldsAt(pc, x)
  {
  }

  lemma MoveStaysOk(pc: Pc, m: Move)
    requires Permits(pc, m) && ThreadOk(Thread(pc, 0))
    ensures ThreadOk(Thread(m.pc, 0)) && !m.pc.WantTop? && !m.pc.WantReport?
    ensures m.pc.Forking? || m.pc.Unforking? ==> pc.Forking? || pc.Unforking?
    ensures m.unlock == Some(Top) ==> pc.Unforking?
  {
  }

  /** Locking and unlocking by t keeps "held" equal to "owned", for every thread u and mutex x. */
  lemma TransferKeeps(owner: map<Mutex, Tid>, t: Tid, got: Option<Mutex>, lost: Option<Mutex>,
                      u: Tid, x: Mutex, before: bool, after: bool)
    requires got.Some? ==> got.value !in owner
    requires before <==> x in owner && owner[x] == u
    requires lost == Some(x) ==> got == lost || (x in owner && owner[x] == t)
    requires u == t ==> (after <==> (before || got == Some(x)) && lost != Some(x))
    requires u != t ==> (after <==> before)
    ensures var owner' := Transfer(owner, t, got, lost);
            after <==> x in owner' && owner'[x] == u
  {
  }

  lemma GoKept(owner: map<Mutex, Tid>, t: Tid, th: Thread, pc: Pc, lost: Option<Mutex>, u: Tid, other: Thread, x: Mutex)
    requires u == t ==> other == th
    requires Holds(other, x) <==> (x in owner && owner[x] == u)
    requires Holds(th, x) <==> (x in owner && owner[x] == t)
    requires Wants(th.pc).Some? ==> Wants(th.pc).value !in owner
    requires HoldsAt(pc, x) <==> (HoldsAt(th.pc, x) || Wants(th.pc) == Some(x)) && lost != Some(x)
    requires lost == Some(x) ==> HoldsAt(th.pc, x)
    requires x == Top && th.depth > 0 ==> lost != Some(Top)
    ensures var owner' := Transfer(owner, t, Wants(th.pc), lost);
            Holds(if u == t then Thread(pc, th.depth) else other, x) <==> (x in owner' && owner'[x] == u)
  {
    TransferKeeps(owner, t, Wants(th.pc), lost, u, x, Holds(other, x),
                  Holds(if u == t then Thread(pc, th.depth) else other, x));
  }

  lemma GoStep(owner: map<Mutex, Tid>, t: Tid, th: Thread, m: Move, u: Tid, other: Thread, x: Mutex)
    requires ThreadOk(th) && Permits(th.pc, m) && (u == t ==> other == th)
    requires Holds(other, x) <==> (x in owner && owner[x] == u)
    requires Holds(th, x) <==> (x in owner && owner[x] == t)
    requires Wants(th.pc).Some? ==> Wants(th.pc).value !in owner
    ensures var owner' := Transfer(owner, t, Wants(th.pc), m.unlock);
            Holds(if u == t then Thread(m.pc, th.depth) else other, x) <==> (x in owner' && owner'[x] == u)
  {
    MoveStaysOk(th.pc, m);
    MoveHolds(th.pc, m, x);
    GoKept(owner, t, th, m.pc, m.unlock, u, other, x);
  }

  lemma HeldIff(s: State, t: Tid, m: Mutex)
    requires Inv(s) && t in s.threads
    ensures Holds(s.threads[t], m) <==> (m in s.owner && s.owner[m] == t)
  {
    hide Holds;
    assert Holds(s.threads[t], m) <==> (m in s.owner && s.owner[m] == t);
  }

  lemma CallKept(s: State, a: Action, u: Tid, x: Mutex)
    requires Inv(s) && Enabled(s, a) && !a.Go? && !IsReport(a) && u in Do(s, a).threads
    ensures var s' := Do(s, a);
            Holds(s'.threads[u], x) <==> (x in s'.owner && s'.owner[x] == u)
  {
    if u in s.threads { HeldIff(s, u, x); }
    if a.t in s.threads { HeldIff(s, a.t, x); }
    hide Inv;
  }

  predicate IsReport(a: Action) {
    a.Report? || a.GotReport? || a.EndReport?
  }

  /** A report holds what is held where it is made, and the API lock from when it has it to its end. */
  lemma ReportHolds(pc: Pc, depth: nat, x: Mutex)
    requires ThreadOk(Thread(pc, depth)) && ReportsFrom(pc).Some?
    ensures var site := ReportsFrom(pc).value;
            && (depth == 0 ==> (Holds(Thread(WantReport(site), 0), x) <==> Holds(Thread(pc, 0), x)))
            && (depth > 0 ==> site != Everything)
            && (depth > 0 ==> (Holds(Thread(HasReport(site), depth + 1), x) <==> Holds(Thread(pc, depth), x)))
  {
  }

  lemma ReportEnds(site: Site, depth: nat, x: Mutex)
    requires site != Everything && depth > 0
    ensures Holds(Thread(HasReport(site), 1), x) <==> Holds(Thread(WantReport(site), 0), x) || x == Top
    ensures Holds(Thread(Ended(site), depth - 1), x)
            <==> Holds(Thread(HasReport(site), depth), x) && !(x == Top && depth == 1)
  {
  }

  lemma ReportKept(s: State, a: Action, u: Tid, x: Mutex)
    requires Inv(s) && Enabled(s, a) && IsReport(a) && u in s.threads
    ensures var s' := Do(s, a);
            Holds(s'.threads[u], x) <==> (x in s'.owner && s'.owner[x] == u)
  {
    HeldIff(s, u, x);
    HeldIff(s, a.t, x);
    HeldIff(s, a.t, Top);
    assert ThreadOk(s.threads[a.t]);
    if a.GotReport? { ReportWaits(s, a.t); }
    hide Inv, Holds, HoldsAt;
    var th := s.threads[a.t];
    if a.Report? {
      ReportHolds(th.pc, th.depth, x);
    } else {
      ReportEnds(th.pc.site, if a.GotReport? then 1 else th.depth, x);
    }
  }

  /** With all five locked a report never gets the API lock. */
  lemma ReportWaits(s: State, t: Tid)
    requires Inv(s) && t in s.threads && s.threads[t].pc.WantReport? && Top !in s.owner
    ensures s.threads[t].pc.site != Everything && s.threads[t].depth == 0
  {
    HeldIff(s, t, Top);
    assert ThreadOk(s.threads[t]);
  }

  lemma ThreadsStayOk(s: State, a: Action)
    requires Inv(s) && Enabled(s, a)
    ensures forall t :: t in Do(s, a).threads ==> ThreadOk(Do(s, a).threads[t])
  {
    if a.Go? { MoveStaysOk(s.threads[a.t].pc, a.m); }
    if a.GotReport? { ReportWaits(s, a.t); }
  }

  lemma OwnersStay(s: State, a: Action)
    requires Inv(s) && Enabled(s, a)
    ensures forall m :: m in Do(s, a).owner ==> Do(s, a).owner[m] in Do(s, a).threads
  {
    if a.Exit? {
      forall m | m in s.owner ensures s.owner[m] != a.t {
        assert Holds(s.threads[a.t], m) <==> (m in s.owner && s.owner[m] == a.t);
      }
    }
  }

  lemma HeldAfterGo(s: State, t: Tid, m: Move)
    requires Inv(s) && Enabled(s, Go(t, m))
    ensures HeldIsOwned(Do(s, Go(t, m)))
  {
    var th, s' := s.threads[t], Do(s, Go(t, m));
    hide Holds, Permits, Wants, Transfer;
    forall u, x | u in s'.threads
      ensures Holds(s'.threads[u], x) <==> (x in s'.owner && s'.owner[x] == u)
    {
      HeldIff(s, u, x);
      HeldIff(s, t, x);
      GoStep(s.owner, t, th, m, u, s.threads[u], x);
    }
  }

  lemma InvStep(s: State, a: Action)
    requires Inv(s) && Enabled(s, a)
    ensures Inv(Do(s, a))
  {
    ThreadsStayOk(s, a);
    OwnersStay(s, a);
    if a.Go? {
      HeldAfterGo(s, a.t, a.m);
    } else {
      forall u, x | u in Do(s, a).threads
        ensures Holds(Do(s, a).threads[u], x) <==> (x in Do(s, a).owner && Do(s, a).owner[x] == u)
      {
        if IsReport(a) { ReportKept(s, a, u, x); } else { CallKept(s, a, u, x); }
      }
    }
  }

  lemma {:induction false} InvHolds(states: seq<State>, acts: seq<Action>, i: nat)
    requires IsRun(states, acts) && i < |states|
    ensures Inv(states[i])
  {
    if i > 0 {
      InvHolds(states, acts, i - 1);
      InvStep(states[i - 1], acts[i - 1]);
    }
  }

  /** What a thread wants comes after all it holds, except that an error report wants the first mutex of all. */
  lemma InOrderUnlessReporting(th: Thread, m: Mutex, w: Mutex)
    requires ThreadOk(th) && Holds(th, m) && Wants(th.pc) == Some(w)
    ensures Rank(m) < Rank(w) <==> !th.pc.WantReport?
  {
  }

  /** t is stopped at a mutex that u owns. */
  predicate WaitsFor(s: State, t: Tid, u: Tid) {
    t in s.threads && Wants(s.threads[t].pc).Some? &&
    var w := Wants(s.threads[t].pc).value;
    w in s.owner && s.owner[w] == u
  }

  ghost predicate Chain(s: State, ts: seq<Tid>) {
    forall i :: 0 <= i < |ts| - 1 ==> WaitsFor(s, ts[i], ts[i + 1])
  }

  function Wanted(s: State, t: Tid): (m: Mutex)
    requires t in s.threads && Wants(s.threads[t].pc).Some?
  {
    Wants(s.threads[t].pc).value
  }

  /** t is reporting an error under a mutex and has come to the API lock. */
  predicate Reporting(s: State, t: Tid) {
    t in s.threads && s.threads[t].pc.WantReport?
  }

  /** Whoever is waited for and wants a mutex itself wants a later one, unless it is reporting. */
  lemma LocksInOrder(s: State, t: Tid, u: Tid)
    requires Inv(s) && WaitsFor(s, t, u) && u in s.threads && Wants(s.threads[u].pc).Some? && !Reporting(s, u)
    ensures Rank(Wanted(s, t)) < Rank(Wanted(s, u))
  {
    var m := Wanted(s, t);
    HeldIff(s, u, m);
    InOrderUnlessReporting(s.threads[u], m, Wanted(s, u));
  }

  ghost predicate NoneReporting(s: State, ts: seq<Tid>) {
    forall i :: 0 <= i < |ts| ==> !Reporting(s, ts[i])
  }

  lemma {:induction false} ChainClimbs(s: State, ts: seq<Tid>)
    requires Inv(s) && |ts| >= 3 && Chain(s, ts) && NoneReporting(s, ts[1..|ts| - 1])
    ensures WaitsFor(s, ts[0], ts[1]) && WaitsFor(s, ts[|ts| - 2], ts[|ts| - 1])
    ensures Rank(Wanted(s, ts[0])) < Rank(Wanted(s, ts[|ts| - 2]))
  {
    var n := |ts|;
    assert WaitsFor(s, ts[n - 2], ts[n - 1]) && WaitsFor(s, ts[n - 3], ts[n - 2]);
    assert ts[1..n - 1][n - 3] == ts[n - 2];
    LocksInOrder(s, ts[n - 3], ts[n - 2]);
    if n > 3 {
      assert ts[..n - 1][1..n - 2] == ts[1..n - 1][..n - 3];
      ChainClimbs(s, ts[..n - 1]);
    } else {
      assert WaitsFor(s, ts[0], ts[1]);
    }
  }

  // ---------------------------------------------------------------- circles

  /** A report waits for a thread that waits for the reporter's mutex, or for itself. */
  predicate Deadlocked(s: State, r: Tid) {
    Reporting(s, r) && Top in s.owner && (s.owner[Top] == r || WaitsFor(s, s.owner[Top], r))
  }

  ghost predicate NoDeadlock(s: State) {
    forall r :: !Deadlocked(s, r)
  }

  predicate HasCircle(s: State, ts: seq<Tid>) {
    |ts| >= 2 && ts[0] == ts[|ts| - 1] && forall i :: 0 <= i < |ts| - 1 ==> WaitsFor(s, ts[i], ts[i + 1])
  }

  /** A thread that is waited for and is stopped before a reporter's mutex is the one that has the API lock. */
  lemma BeforeReporter(th: Thread, held: Mutex, r: Thread)
    requires ThreadOk(th) && !th.pc.WantReport? && Holds(th, held) && r.pc.WantReport? && ThreadOk(r)
    requires Wants(th.pc).Some? && Holds(r, Wants(th.pc).value)
    ensures Holds(th, Top) || Holds(r, Top)
  {
  }

  lemma HeldThenReport(s: State, x: Tid, held: Mutex, y: Tid)
    requires Inv(s) && held in s.owner && s.owner[held] == x && !Reporting(s, x) && WaitsFor(s, x, y) && Reporting(s, y)
    ensures Deadlocked(s, y)
  {
    HeldIff(s, x, held);
    HeldIff(s, y, Wanted(s, x));
    BeforeReporter(s.threads[x], held, s.threads[y]);
    HeldIff(s, x, Top);
    HeldIff(s, y, Top);
  }

  /** In front of a reporter whom a chain reaches there is a deadlocked one, or the chain begins there. */
  lemma {:induction false} ChainToReporter(s: State, ts: seq<Tid>) returns (r: Tid)
    requires Inv(s) && |ts| >= 2 && Chain(s, ts) && Reporting(s, ts[|ts| - 1])
    requires Top in s.owner && s.owner[Top] == ts[0]
    ensures Deadlocked(s, r)
  {
    var n := |ts|;
    var x, y := ts[n - 2], ts[n - 1];
    assert WaitsFor(s, x, y);
    if n == 2 { return y; }
    if Reporting(s, x) {
      r := ChainToReporter(s, ts[..n - 1]);
      return;
    }
    assert WaitsFor(s, ts[n - 3], x);
    HeldThenReport(s, x, Wanted(s, ts[n - 3]), y);
    r := y;
  }

  /** A circle with a reporter in it, turned so that it begins behind the reporter. */
  lemma CircleFrom(s: State, ts: seq<Tid>, k: nat) returns (turned: seq<Tid>)
    requires HasCircle(s, ts) && k < |ts| - 1
    ensures |turned| == |ts| && Chain(s, turned) && turned[0] == ts[k] && turned[|turned| - 1] == ts[k]
  {
    var n := |ts|;
    turned := ts[k..n - 1] + ts[..k + 1];
    forall i | 0 <= i < n - 1 ensures WaitsFor(s, turned[i], turned[i + 1]) {
      var j := if i < n - 1 - k then k + i else i - (n - 1 - k);
      assert turned[i] == ts[j] && turned[i + 1] == ts[j + 1];
      assert WaitsFor(s, ts[j], ts[j + 1]);
    }
  }

  /** Once around a circle and one wait further. */
  lemma OnceRound(s: State, ts: seq<Tid>) returns (round: seq<Tid>)
    requires HasCircle(s, ts)
    ensures |round| == |ts| + 1 && round[..|ts|] == ts && round[|ts|] == ts[1] && Chain(s, round)
  {
    round := ts + [ts[1]];
    forall i | 0 <= i < |round| - 1 ensures WaitsFor(s, round[i], round[i + 1]) {
      if i < |ts| - 1 { assert WaitsFor(s, ts[i], ts[i + 1]); } else { assert WaitsFor(s, ts[0], ts[1]); }
    }
  }

  lemma CircleReports(s: State, ts: seq<Tid>) returns (k: nat)
    requires Inv(s) && HasCircle(s, ts)
    ensures k < |ts| - 1 && Reporting(s, ts[k])
  {
    if k :| 0 <= k < |ts| - 1 && Reporting(s, ts[k]) { return k; }
    hide Inv, Reporting;
    var round := OnceRound(s, ts);
    var inner := round[1..|round| - 1];
    forall i | 0 <= i < |inner| ensures !Reporting(s, inner[i]) {
      assert inner[i] == round[..|ts|][i + 1] == ts[i + 1];
      if i + 1 == |ts| - 1 { assert !Reporting(s, ts[0]); } else { assert !Reporting(s, ts[i + 1]); }
    }
    assert round[|ts| - 1] == round[..|ts|][|ts| - 1] == round[..|ts|][0];
    ChainClimbs(s, round);
    assert false;
  }

  lemma ReporterWaits(s: State, r: Tid, v: Tid)
    requires Reporting(s, r) && WaitsFor(s, r, v)
    ensures Top in s.owner && s.owner[Top] == v && (v == r ==> Deadlocked(s, r))
  {
  }

  lemma CircleDeadlocks(s: State, ts: seq<Tid>) returns (r: Tid)
    requires Inv(s) && HasCircle(s, ts)
    ensures Deadlocked(s, r)
  {
    hide Inv, Reporting, Deadlocked, WaitsFor;
    var k := CircleReports(s, ts);
    var turned := CircleFrom(s, ts, k);
    assert WaitsFor(s, turned[0], turned[1]);
    ReporterWaits(s, ts[k], turned[1]);
    if |turned| == 2 { return ts[k]; }
    var tail := turned[1..];
    forall i | 0 <= i < |tail| - 1 ensures WaitsFor(s, tail[i], tail[i + 1]) {
      assert WaitsFor(s, turned[i + 1], turned[i + 1 + 1]);
    }
    r := ChainToReporter(s, tail);
  }

  /**
    In every reachable state, threads wait for each other's mutexes in a circle, of any length, exactly if
    a thread is reporting an error under a mutex and is stopped at the API lock, and that is its own or is
    held by a thread stopped at a mutex of the reporter.  No other path can take part in a circle by itself.
   */
  lemma CircularWaitIff(states: seq<State>, acts: seq<Action>, i: nat)
    requires IsRun(states, acts) && i < |states|
    ensures (exists ts :: HasCircle(states[i], ts)) <==> (exists r :: Deadlocked(states[i], r))
  {
    InvHolds(states, acts, i);
    hide IsRun, Inv, HasCircle, Deadlocked;
    var s := states[i];
    if ts :| HasCircle(s, ts) { var r := CircleDeadlocks(s, ts); }
    if r :| Deadlocked(s, r) { var circle := DeadlockCircle(s, r); }
  }

  lemma DeadlockCircle(s: State, r: Tid) returns (ts: seq<Tid>)
    requires Deadlocked(s, r)
    ensures HasCircle(s, ts)
  {
    ts := if s.owner[Top] == r then [r, r] else [r, s.owner[Top], r];
  }

  // ---------------------------------------------------------------- progress

  /** t is stopped at a mutex that is held. */
  predicate Stopped(s: State, t: Tid) {
    t in s.threads && Wants(s.threads[t].pc).Some? && Wants(s.threads[t].pc).value in s.owner
  }

  /** A chain of waits leads from t to a thread that is not stopped. */
  ghost predicate WillGoOn(s: State, t: Tid) {
    exists ts: seq<Tid> :: |ts| >= 1 && ts[0] == t && Chain(s, ts) && !Stopped(s, ts[|ts| - 1])
  }

  lemma WaitsForOneThatGoesOn(s: State, t: Tid, u: Tid)
    requires WaitsFor(s, t, u) && WillGoOn(s, u)
    ensures WillGoOn(s, t)
  {
    var ts: seq<Tid> :| |ts| >= 1 && ts[0] == u && Chain(s, ts) && !Stopped(s, ts[|ts| - 1]);
    var longer := [t] + ts;
    forall i | 0 <= i < |longer| - 1 ensures WaitsFor(s, longer[i], longer[i + 1]) {
      if i > 0 { assert WaitsFor(s, ts[i - 1], ts[i - 1 + 1]); }
    }
    assert longer[|longer| - 1] == ts[|ts| - 1];
  }

  lemma RunningGoesOn(s: State, t: Tid)
    requires !Stopped(s, t)
    ensures WillGoOn(s, t)
  {
    assert Chain(s, [t]) && [t][0] == t;
  }

  /** From a thread that is waited for and not reporting, every wait leads to a later mutex. */
  lemma {:induction false} HolderGoesOn(s: State, x: Tid, held: Mutex)
    requires Inv(s) && NoDeadlock(s) && held in s.owner && s.owner[held] == x && !Reporting(s, x)
    ensures WillGoOn(s, x)
    decreases if Stopped(s, x) then 5 - Rank(Wanted(s, x)) else 0
  {
    if !Stopped(s, x) {
      RunningGoesOn(s, x);
      return;
    }
    var m := Wanted(s, x);
    var y := s.owner[m];
    assert WaitsFor(s, x, y) && y in s.threads && x in s.threads;
    if Reporting(s, y) {
      HeldThenReport(s, x, held, y);
      assert false;
    } else {
      if Stopped(s, y) { LocksInOrder(s, x, y); }
      HolderGoesOn(s, y, m);
      WaitsForOneThatGoesOn(s, x, y);
    }
  }

  lemma TopOwnerIsNotReporting(s: State)
    requires NoDeadlock(s) && Top in s.owner
    ensures !Reporting(s, s.owner[Top])
  {
    var v := s.owner[Top];
    assert !Deadlocked(s, v);
  }

  lemma ReporterStopped(s: State, r: Tid)
    requires Reporting(s, r) && Stopped(s, r)
    ensures Top in s.owner && WaitsFor(s, r, s.owner[Top])
  {
  }

  lemma ReporterGoesOn(s: State, r: Tid)
    requires Inv(s) && NoDeadlock(s) && Reporting(s, r)
    ensures WillGoOn(s, r)
  {
    if Stopped(s, r) {
      ReporterStopped(s, r);
      hide Inv, NoDeadlock, WillGoOn, WaitsFor, Stopped, Reporting;
      TopOwnerIsNotReporting(s);
      HolderGoesOn(s, s.owner[Top], Top);
      WaitsForOneThatGoesOn(s, r, s.owner[Top]);
    } else {
      RunningGoesOn(s, r);
    }
  }

  /** Whoever waits for a deadlocked report, or for the thread it waits for, never gets out of the two. */
  lemma {:induction false} DeadlockHolds(s: State, r: Tid, ts: seq<Tid>)
    requires Deadlocked(s, r) && |ts| >= 1 && Chain(s, ts) && (ts[0] == r || ts[0] == s.owner[Top])
    ensures Stopped(s, ts[|ts| - 1]) && (ts[|ts| - 1] == r || ts[|ts| - 1] == s.owner[Top])
  {
    var n := |ts|;
    if n > 1 {
      DeadlockHolds(s, r, ts[..n - 1]);
      assert WaitsFor(s, ts[n - 2], ts[n - 1]);
    }
  }

  /**
    In every reachable state each thread that is stopped waits, directly or through others, for one that is
    not stopped, exactly if no error report is deadlocked in that way.
   */
  lemma AllGoOnIff(states: seq<State>, acts: seq<Action>, i: nat)
    requires IsRun(states, acts) && i < |states|
    ensures (forall t :: Stopped(states[i], t) ==> WillGoOn(states[i], t)) <==> NoDeadlock(states[i])
  {
    InvHolds(states, acts, i);
    var s := states[i];
    if r :| Deadlocked(s, r) {
      assert Stopped(s, r);
      if WillGoOn(s, r) {
        var ts: seq<Tid> :| |ts| >= 1 && ts[0] == r && Chain(s, ts) && !Stopped(s, ts[|ts| - 1]);
        DeadlockHolds(s, r, ts);
      }
    } else {
      forall t | Stopped(s, t) ensures WillGoOn(s, t) { StoppedGoesOn(s, t); }
    }
  }

  lemma StoppedGoesOn(s: State, t: Tid)
    requires Inv(s) && NoDeadlock(s) && Stopped(s, t)
    ensures WillGoOn(s, t)
  {
    var y := s.owner[Wanted(s, t)];
    assert WaitsFor(s, t, y);
    if Reporting(s, y) { ReporterGoesOn(s, y); } else { HolderGoesOn(s, y, Wanted(s, t)); }
    WaitsForOneThatGoesOn(s, t, y);
  }

  /** So without a deadlocked report, some holder of a mutex is not itself stopped. */
  lemma SomeHolderRuns(states: seq<State>, acts: seq<Action>, i: nat) returns (m: Mutex)
    requires IsRun(states, acts) && i < |states| && states[i].owner.Keys != {}
    requires NoDeadlock(states[i])
    ensures m in states[i].owner && !Stopped(states[i], states[i].owner[m])
  {
    InvHolds(states, acts, i);
    var s := states[i];
    m :| m in s.owner.Keys;
    if Stopped(s, s.owner[m]) {
      StoppedGoesOn(s, s.owner[m]);
      var ts: seq<Tid> :| |ts| >= 1 && ts[0] == s.owner[m] && Chain(s, ts) && !Stopped(s, ts[|ts| - 1]);
      assert |ts| > 1 && WaitsFor(s, ts[|ts| - 2], ts[|ts| - 1]);
      m := Wanted(s, ts[|ts| - 2]);
    }
  }

  /** The state in which t, now in no routine, has entered tet_mtx_lock(). */
  function Entering(s: State, t: Tid): State
    requires t in s.threads
  {
    s.(threads := s.threads[t := s.threads[t].(pc := Forking(0))])
  }

  lemma ForkWaits(s: State, t: Tid)
    requires t in s.threads && s.threads[t].pc == Out
    requires Holds(s.threads[t], Top) <==> (Top in s.owner && s.owner[Top] == t)
    ensures WaitsFor(Entering(s, t), t, t) <==> s.threads[t].depth > 0
  {
    assert Wants(Entering(s, t).threads[t].pc) == Some(Top);
  }

  /**
    tet_fork() calls tet_mtx_lock() on the documented assumption that it is never called from
    another API function.  The assumption is exactly what keeps it from waiting for itself.
   */
  lemma ForkWaitsForItselfIffNested(states: seq<State>, acts: seq<Action>, i: nat, t: Tid)
    requires IsRun(states, acts) && i < |states| && t in states[i].threads && states[i].threads[t].pc == Out
    ensures WaitsFor(Entering(states[i], t), t, t) <==> states[i].threads[t].depth > 0
  {
    InvHolds(states, acts, i);
    var s := states[i];
    HeldIff(s, t, Top);
    ForkWaits(s, t);
  }

  // ---------------------------------------------------------------- runs

  /** A run, given by its last state. */
  ghost predicate Reached(states: seq<State>, acts: seq<Action>, s: State) {
    IsRun(states, acts) && states[|acts|] == s
  }

  /** The run goes on with a. */
  lemma Next(states: seq<State>, acts: seq<Action>, s: State, a: Action)
    returns (states': seq<State>, acts': seq<Action>)
    requires Reached(states, acts, s) && Enabled(s, a)
    ensures Reached(states', acts', Do(s, a)) && |acts'| == |acts| + 1
  {
    states', acts' := states + [Do(s, a)], acts + [a];
    forall i | 0 <= i < |acts'|
      ensures Enabled(states'[i], acts'[i]) && states'[i + 1] == Do(states'[i], acts'[i])
    {
      if i < |acts| { assert Enabled(states[i], acts[i]) && states[i + 1] == Do(states[i], acts[i]); }
    }
  }

  /** Where threads 0 and 1 are, outside all API calls, and who owns a mutex. */
  predicate At(s: State, pc0: Pc, pc1: Pc) {
    0 in s.threads && 1 in s.threads && s.threads[0] == Thread(pc0, 0) && s.threads[1] == Thread(pc1, 0)
  }

  predicate Owns(s: State, m: Mutex, t: Tid) {
    m in s.owner && s.owner[m] == t
  }

  /** Only these mutexes are owned. */
  predicate Only(s: State, ms: set<Mutex>) {
    s.owner.Keys == ms
  }

  /** A step of thread 0 or 1 along its routine. */
  lemma NextMove(states: seq<State>, acts: seq<Action>, s: State, t: Tid, m: Move)
    returns (states': seq<State>, acts': seq<Action>, s': State)
    requires Reached(states, acts, s) && Enabled(s, Go(t, m))
    ensures Reached(states', acts', s')
    ensures s' == Do(s, Go(t, m))
  {
    states', acts' := Next(states, acts, s, Go(t, m));
    s' := Do(s, Go(t, m));
  }

  lemma TwoThreads() returns (states: seq<State>, acts: seq<Action>, s: State)
    ensures Reached(states, acts, s) && At(s, Out, Out) && Only(s, {})
  {
    s := State(map[], map[]);
    states, acts := [s], [];
    states, acts := Next(states, acts, s, Spawn(0));
    s := Do(s, Spawn(0));
    states, acts := Next(states, acts, s, Spawn(1));
    s := Do(s, Spawn(1));
  }

  /** The cleanup enters the table with one other thread about. */
  lemma CleanupStarts() returns (states: seq<State>, acts: seq<Action>, s: State)
    ensures Reached(states, acts, s) && At(s, HasClean, Out) && Only(s, {ThrTab}) && Owns(s, ThrTab, 0)
  {
    hide Reached;
    states, acts, s := TwoThreads();
    states, acts, s := NextMove(states, acts, s, 0, Move(WantClean, None));
    states, acts, s := NextMove(states, acts, s, 0, Move(HasClean, None));
  }

  /** An alarm thread has its SIGALRM action installed, with one other thread about. */
  lemma AlarmFires() returns (states: seq<State>, acts: seq<Action>, s: State)
    ensures Reached(states, acts, s) && At(s, HasSig, Out) && Only(s, {SigAlrm}) && Owns(s, SigAlrm, 0)
  {
    hide Reached;
    states, acts, s := TwoThreads();
    states, acts, s := NextMove(states, acts, s, 0, Move(WantFirst, None));
    states, acts, s := NextMove(states, acts, s, 0, Move(HasFirst, None));
    states, acts, s := NextMove(states, acts, s, 0, Move(WantSig, Some(Alarm)));
    states, acts, s := NextMove(states, acts, s, 0, Move(HasSig, None));
  }

  /** t goes through tet_mtx_lock() until it has the first k mutexes. */
  lemma {:induction false} Locks(states: seq<State>, acts: seq<Action>, s: State, t: Tid, k: nat)
    returns (states': seq<State>, acts': seq<Action>, s': State)
    requires Reached(states, acts, s) && k <= 5 && t in s.threads && s.threads[t] == Thread(Out, 0)
    requires forall m :: m in s.owner ==> Rank(m) >= k
    ensures Reached(states', acts', s')
    ensures s'.threads == s.threads[t := Thread(Forking(k), 0)]
    ensures forall m :: Rank(m) < k ==> Owns(s', m, t)
    ensures forall m :: Rank(m) >= k ==> (m in s'.owner <==> m in s.owner) && (m in s.owner ==> Owns(s', m, s.owner[m]))
  {
    hide Reached;
    if k == 0 {
      states', acts' := Next(states, acts, s, Fork(t));
      s' := Do(s, Fork(t));
    } else {
      states', acts', s' := Locks(states, acts, s, t, k - 1);
      states', acts', s' := TakesNext(states', acts', s', t, k - 1);
    }
  }

  lemma TakesNext(states: seq<State>, acts: seq<Action>, s: State, t: Tid, k: nat)
    returns (states': seq<State>, acts': seq<Action>, s': State)
    requires Reached(states, acts, s) && k < 5 && t in s.threads && s.threads[t] == Thread(Forking(k), 0)
    requires ALL[k] !in s.owner
    ensures Reached(states', acts', s')
    ensures s' == State(s.owner[ALL[k] := t], s.threads[t := Thread(Forking(k + 1), 0)])
  {
    hide Reached;
    states', acts', s' := NextMove(states, acts, s, t, Move(Forking(k + 1), None));
  }

  lemma WaitForEachOther(s: State)
    requires Reporting(s, 0) && Owns(s, Top, 1) && WaitsFor(s, 1, 0)
    ensures Deadlocked(s, 0) && HasCircle(s, [0, 1, 0])
  {
  }

  /** The cleanup can not create its helper while another thread in tet_mtx_lock() is stopped at the table. */
  lemma CleanupReportDeadlocks() returns (states: seq<State>, acts: seq<Action>, s: State)
    ensures Reached(states, acts, s) && Deadlocked(s, 0) && HasCircle(s, [0, 1, 0])
  {
    hide Reached, Deadlocked, HasCircle;
    states, acts, s := CleanupStarts();
    states, acts, s := Locks(states, acts, s, 1, 1);
    assert Owns(s, ThrTab, 0) && Owns(s, Top, 1);
    states, acts := Next(states, acts, s, Report(0));
    s := Do(s, Report(0));
    WaitForEachOther(s);
  }

  /** An alarm thread reports an error while another thread in tet_mtx_lock() is stopped at SigAlrm. */
  lemma AlarmReportDeadlocks() returns (states: seq<State>, acts: seq<Action>, s: State)
    ensures Reached(states, acts, s) && Deadlocked(s, 0) && HasCircle(s, [0, 1, 0])
  {
    hide Reached, Deadlocked, HasCircle;
    states, acts, s := AlarmFires();
    states, acts, s := Locks(states, acts, s, 1, 3);
    assert Owns(s, SigAlrm, 0) && Owns(s, Top, 1);
    states, acts := Next(states, acts, s, Report(0));
    s := Do(s, Report(0));
    WaitForEachOther(s);
  }

  lemma SecondWaitBegins() returns (states: seq<State>, acts: seq<Action>, s: State)
    ensures Reached(states, acts, s) && At(s, HasSecond, Out) && Only(s, {SigAlrm, Alarm}) && Owns(s, SigAlrm, 0)
  {
    hide Reached;
    states, acts, s := AlarmFires();
    states, acts, s := NextMove(states, acts, s, 0, Move(WantSecond, None));
    states, acts, s := NextMove(states, acts, s, 0, Move(HasSecond, None));
  }

  /** The second wait of an alarm thread is over. */
  lemma SecondWaitEnds() returns (states: seq<State>, acts: seq<Action>, s: State)
    ensures Reached(states, acts, s) && At(s, Restoring, Out) && Only(s, {SigAlrm}) && Owns(s, SigAlrm, 0)
  {
    hide Reached;
    states, acts, s := SecondWaitBegins();
    states, acts, s := NextMove(states, acts, s, 0, Move(Restoring, Some(Alarm)));
  }

  /** An alarm thread reports that nobody cleared the alarm, in the same way. */
  lemma SecondWaitReportDeadlocks() returns (states: seq<State>, acts: seq<Action>, s: State)
    ensures Reached(states, acts, s) && Deadlocked(s, 0) && HasCircle(s, [0, 1, 0])
  {
    hide Reached, Deadlocked, HasCircle;
    states, acts, s := SecondWaitEnds();
    states, acts, s := Locks(states, acts, s, 1, 3);
    assert Owns(s, SigAlrm, 0) && Owns(s, Top, 1);
    states, acts := Next(states, acts, s, Report(0));
    s := Do(s, Report(0));
    WaitForEachOther(s);
  }

  /** tet_sp2() reports that pipe() failed: the thread waits for itself. */
  lemma SpawnReportDeadlocks() returns (states: seq<State>, acts: seq<Action>, s: State)
    ensures Reached(states, acts, s) && Deadlocked(s, 0) && HasCircle(s, [0, 0])
  {
    hide Reached, HasCircle;
    states, acts, s := TwoThreads();
    states, acts, s := Locks(states, acts, s, 0, 5);
    assert Owns(s, Top, 0);
    states, acts := Next(states, acts, s, Report(0));
    s := Do(s, Report(0));
    OwnCircle(s, 0);
  }

  lemma OwnCircle(s: State, t: Tid)
    requires WaitsFor(s, t, t)
    ensures HasCircle(s, [t, t])
  {
  }

  /** A chain of mutex waits leads from u to t. */
  ghost predicate LeadsTo(s: State, u: Tid, t: Tid) {
    exists ts: seq<Tid> :: |ts| >= 2 && ts[0] == u && ts[|ts| - 1] == t && Chain(s, ts)
  }

  /** u is stopped at the API lock, and the thread that has it is about to lock the thread table. */
  predicate StoppedBehindTable(s: State, u: Tid) {
    && WantsMutex(s, u, Top) && Top in s.owner && WantsMutex(s, s.owner[Top], ThrTab)
  }

  predicate WantsMutex(s: State, u: Tid, m: Mutex) {
    u in s.threads && Wants(s.threads[u].pc) == Some(m)
  }

  lemma JoiningHolds(th: Thread, m: Mutex)
    requires th.pc.Joining?
    ensures Wants(th.pc) == None && (Holds(th, m) <==> m == ThrTab || (m == Top && th.depth > 0))
  {
  }

  /** A thread that joins holds the table and at most the API lock, and is not itself stopped. */
  lemma JoinerHolds(s: State, t: Tid, m: Mutex)
    requires Inv(s) && t in s.threads && s.threads[t].pc.Joining?
    ensures ThrTab in s.owner && s.owner[ThrTab] == t && Wants(s.threads[t].pc) == None
    ensures m in s.owner && s.owner[m] == t ==> m == ThrTab || m == Top
  {
    JoiningHolds(s.threads[t], ThrTab);
    JoiningHolds(s.threads[t], m);
  }

  /** u is stopped at SigAlrm, and its owner reports an error and is stopped at the API lock before t. */
  predicate StoppedBehindReport(s: State, u: Tid, t: Tid) {
    && WantsMutex(s, u, SigAlrm) && SigAlrm in s.owner && Reporting(s, s.owner[SigAlrm])
    && Top in s.owner && (s.owner[Top] == t || WantsMutex(s, s.owner[Top], ThrTab))
  }

  /** Without a report, the thread before the last wants one of t's mutexes; a longer chain begins at Top. */
  lemma ChainToJoiner(s: State, ts: seq<Tid>, t: Tid)
    requires Inv(s) && t in s.threads && s.threads[t].pc.Joining?
    requires |ts| >= 2 && ts[|ts| - 1] == t && Chain(s, ts) && NoneReporting(s, ts[1..|ts| - 1])
    ensures WaitsFor(s, ts[0], t) || StoppedBehindTable(s, ts[0])
  {
    var n := |ts|;
    assert WaitsFor(s, ts[0], ts[1]) && WaitsFor(s, ts[n - 2], ts[n - 1]);
    var last := ts[n - 2];
    JoinerHolds(s, t, Wanted(s, last));
    if n > 2 {
      ChainClimbs(s, ts);
      assert Rank(Wanted(s, last)) == 1 && Wanted(s, last) == ThrTab && Wanted(s, ts[0]) == Top;
      if n > 3 {
        var inner := ts[1..];
        forall i | 0 <= i < |inner| - 1 ensures WaitsFor(s, inner[i], inner[i + 1]) {
          assert WaitsFor(s, ts[i + 1], ts[i + 1 + 1]);
        }
        assert inner[1..n - 2] == ts[1..n - 1][1..];
        ChainClimbs(s, inner);
        assert ts[1..n - 1][0] == ts[1];
        LocksInOrder(s, ts[0], ts[1]);
        assert false;
      }
    }
  }

  /** The last reporter before the end of a chain. */
  lemma {:induction false} LastReporter(s: State, ts: seq<Tid>, n: nat) returns (k: nat)
    requires n < |ts| && exists j :: 0 <= j <= n && Reporting(s, ts[j])
    ensures k <= n && Reporting(s, ts[k]) && forall j :: k < j <= n ==> !Reporting(s, ts[j])
  {
    if Reporting(s, ts[n]) { k := n; } else { k := LastReporter(s, ts, n - 1); }
  }

  /** Behind the last reporter there is only the thread that has the API lock, and t if that is another. */
  lemma AfterReporter(s: State, ts: seq<Tid>, k: nat, t: Tid)
    requires Inv(s) && t in s.threads && s.threads[t].pc.Joining? && Chain(s, ts)
    requires k < |ts| - 1 && ts[|ts| - 1] == t && Reporting(s, ts[k])
    requires forall j :: k < j < |ts| ==> !Reporting(s, ts[j])
    ensures Top in s.owner && s.owner[Top] == ts[k + 1]
    ensures s.owner[Top] == t || WantsMutex(s, s.owner[Top], ThrTab)
  {
    assert WaitsFor(s, ts[k], ts[k + 1]);
    ReporterWaits(s, ts[k], ts[k + 1]);
    hide Inv, WaitsFor, Reporting;
    if k + 2 < |ts| {
      ChainTail(s, ts, k + 1);
      NoneReportingIn(s, ts, k + 2);
      assert ts[k + 1..][1..|ts| - k - 2] == ts[k + 2..|ts| - 1];
      hide Chain, NoneReporting;
      ChainToJoiner(s, ts[k + 1..], t);
      TopOwnerToJoiner(s, ts[k], ts[k + 1], t);
    }
  }

  lemma NoneReportingIn(s: State, ts: seq<Tid>, k: nat)
    requires k < |ts| && forall j :: k <= j < |ts| ==> !Reporting(s, ts[j])
    ensures NoneReporting(s, ts[k..|ts| - 1])
  {
    hide Reporting;
    var part := ts[k..|ts| - 1];
    forall i | 0 <= i < |part| ensures !Reporting(s, part[i]) { assert part[i] == ts[k + i]; }
  }

  lemma ChainTail(s: State, ts: seq<Tid>, k: nat)
    requires Chain(s, ts) && k <= |ts|
    ensures Chain(s, ts[k..])
  {
    hide WaitsFor;
    forall i | 0 <= i < |ts[k..]| - 1 ensures WaitsFor(s, ts[k..][i], ts[k..][i + 1]) {
      assert WaitsFor(s, ts[k + i], ts[k + i + 1]);
    }
  }

  /** The thread that has the API lock and waits for t is stopped at the table, unless it is t. */
  lemma TopOwnerToJoiner(s: State, r: Tid, v: Tid, t: Tid)
    requires Inv(s) && t in s.threads && s.threads[t].pc.Joining? && !Reporting(s, v)
    requires WaitsFor(s, r, v) && Top in s.owner && s.owner[Top] == v && Reporting(s, r)
    requires WaitsFor(s, v, t) || StoppedBehindTable(s, v)
    ensures WantsMutex(s, v, ThrTab)
  {
    JoinerHolds(s, t, if WaitsFor(s, v, t) then Wanted(s, v) else Top);
    LocksInOrder(s, r, v);
  }

  /** Whoever is stopped before such a report holds nothing, so that nobody waits for it in turn. */
  lemma BeforeReport(s: State, ts: seq<Tid>, k: nat, t: Tid)
    requires Inv(s) && t in s.threads && s.threads[t].pc.Joining? && Chain(s, ts)
    requires 1 <= k < |ts| - 1 && ts[|ts| - 1] == t && Reporting(s, ts[k])
    requires forall j :: k < j < |ts| ==> !Reporting(s, ts[j])
    ensures k == 1 && WantsMutex(s, ts[0], SigAlrm) && SigAlrm in s.owner && s.owner[SigAlrm] == ts[1]
  {
    AfterReporter(s, ts, k, t);
    var x, r := ts[k - 1], ts[k];
    assert WaitsFor(s, x, r) && WaitsFor(s, r, ts[k + 1]);
    assert Holds(s.threads[r], Wanted(s, x)) && r != t by {
      assert Holds(s.threads[r], Wanted(s, x)) <==> (Wanted(s, x) in s.owner && s.owner[Wanted(s, x)] == r);
    }
    assert !Reporting(s, x);
    JoinerHolds(s, t, ThrTab);
    HeldIff(s, r, ThrTab);
    assert Wanted(s, x) == SigAlrm;
    if k > 1 { BehindSigAlrm(s, ts[k - 2], x, r); }
  }

  /** A thread that is waited for and is stopped at SigAlrm has the API lock. */
  lemma BehindSigAlrm(s: State, w: Tid, x: Tid, r: Tid)
    requires Inv(s) && WaitsFor(s, w, x) && WaitsFor(s, x, r) && Wanted(s, x) == SigAlrm
    ensures Top in s.owner && s.owner[Top] == x
  {
    var held := Wanted(s, w);
    HeldIff(s, x, held);
    HeldIff(s, x, Top);
  }

  /**
    The order covers mutexes only: tet_cln_threads() joins its target while it holds the table mutex.
    In every reachable state the cleanup and its target wait for each other exactly if the target is
    stopped at a mutex of the cleanup, at the API lock behind a thread that is about to lock the table, or
    behind an error report that is stopped there in either of these ways.
   */
  lemma JoinCircleIff(states: seq<State>, acts: seq<Action>, i: nat, t: Tid, u: Tid)
    requires IsRun(states, acts) && i < |states| && t in states[i].threads && states[i].threads[t].pc == Joining(u)
    ensures LeadsTo(states[i], u, t)
            <==> WaitsFor(states[i], u, t) || StoppedBehindTable(states[i], u) || StoppedBehindReport(states[i], u, t)
  {
    InvHolds(states, acts, i);
    var s := states[i];
    if LeadsTo(s, u, t) { JoinCircleIs(s, u, t); }
    if WaitsFor(s, u, t) { assert Chain(s, [u, t]); }
    if StoppedBehindTable(s, u) { BehindTable(s, u, t); }
    if StoppedBehindReport(s, u, t) { BehindReport(s, u, t); }
  }

  lemma JoinCircleIs(s: State, u: Tid, t: Tid)
    requires Inv(s) && t in s.threads && s.threads[t].pc.Joining? && LeadsTo(s, u, t)
    ensures WaitsFor(s, u, t) || StoppedBehindTable(s, u) || StoppedBehindReport(s, u, t)
  {
    var ts: seq<Tid> :| |ts| >= 2 && ts[0] == u && ts[|ts| - 1] == t && Chain(s, ts);
    hide Inv, Chain, NoneReporting;
    if k :| 0 <= k < |ts| && Reporting(s, ts[k]) {
      var last := LastReporter(s, ts, |ts| - 1);
      assert last < |ts| - 1;
      AfterReporter(s, ts, last, t);
      if last > 0 { BeforeReport(s, ts, last, t); }
    } else {
      NoneReportingIn(s, ts, 1);
      ChainToJoiner(s, ts, t);
    }
  }

  lemma BehindReport(s: State, u: Tid, t: Tid)
    requires Inv(s) && t in s.threads && s.threads[t].pc.Joining? && StoppedBehindReport(s, u, t)
    ensures LeadsTo(s, u, t)
  {
    hide Inv, LeadsTo;
    BehindTable(s, s.owner[SigAlrm], t);
    LeadsOn(s, u, s.owner[SigAlrm], t);
  }

  lemma LeadsOn(s: State, u: Tid, r: Tid, t: Tid)
    requires WaitsFor(s, u, r) && LeadsTo(s, r, t)
    ensures LeadsTo(s, u, t)
  {
    hide WaitsFor;
    var ts: seq<Tid> :| |ts| >= 2 && ts[0] == r && ts[|ts| - 1] == t && Chain(s, ts);
    var longer := [u] + ts;
    forall i | 0 <= i < |longer| - 1 ensures WaitsFor(s, longer[i], longer[i + 1]) {
      if i > 0 { assert WaitsFor(s, ts[i - 1], ts[i - 1 + 1]); }
    }
    assert longer[0] == u && longer[|longer| - 1] == t && Chain(s, longer);
  }

  lemma BehindTable(s: State, u: Tid, t: Tid)
    requires Inv(s) && t in s.threads && s.threads[t].pc.Joining? && WantsMutex(s, u, Top) && Top in s.owner
    requires s.owner[Top] == t || WantsMutex(s, s.owner[Top], ThrTab)
    ensures LeadsTo(s, u, t)
  {
    JoinerHolds(s, t, Top);
    var v := s.owner[Top];
    assert WaitsFor(s, u, v);
    if v == t {
      assert Chain(s, [u, t]);
    } else {
      assert WaitsFor(s, v, t) && Chain(s, [u, v, t]);
    }
  }

  lemma LeadsFromStopped(s: State, u: Tid, t: Tid)
    requires LeadsTo(s, u, t)
    ensures Stopped(s, u)
  {
    var ts: seq<Tid> :| |ts| >= 2 && ts[0] == u && ts[|ts| - 1] == t && Chain(s, ts);
    assert WaitsFor(s, ts[0], ts[1]);
  }

  /** A cleanup that joins its own thread waits for nothing but itself: no mutex is involved. */
  lemma OwnJoinWaitsForNoMutex(states: seq<State>, acts: seq<Action>, i: nat, t: Tid, v: Tid)
    requires IsRun(states, acts) && i < |states| && t in states[i].threads && states[i].threads[t].pc == Joining(t)
    ensures !LeadsTo(states[i], t, v)
  {
    InvHolds(states, acts, i);
    JoinerHolds(states[i], t, Top);
    if LeadsTo(states[i], t, v) { LeadsFromStopped(states[i], t, v); }
  }

  /** A run in which the cleanup joins a target that is about to enter the table. */
  lemma CleanupMayJoinItsWaiter() returns (states: seq<State>, acts: seq<Action>, s: State)
    ensures Reached(states, acts, s) && At(s, Joining(1), WantTab) && WaitsFor(s, 1, 0)
  {
    hide Reached;
    states, acts, s := CleanupStarts();
    states, acts, s := NextMove(states, acts, s, 0, Move(Joining(1), None));
    states, acts, s := NextMove(states, acts, s, 1, Move(WantTab, None));
  }
}

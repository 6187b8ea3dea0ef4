/**
  The nested API lock, tet_api_lock(), as a step system: every atomic access of the C statements
  to shared memory is one step, and any number of threads interleave in any order over
  sequentially consistent memory.  In particular the two reads of the guard that decides whether
  to take the mutex are separate steps made without holding it.
 */
module ApiLock {
  import opened Options

  type Tid = nat
  type Mask = set<nat>

  /** The next access to shared state that a thread will make. */
  datatype Pc =
    | Idle                 // in none of the routines
    | ReadNest             // locking: is anybody inside?
    | ReadOwner            // locking: is it this thread?
    | BlockSignals         // outermost lock: keep the old mask in a local and block signals
    | TakeMutex            // outermost lock: wait for the mutex
    | WriteOwner           // outermost lock: note who is inside
    | StoreMask            // outermost lock: move the old mask to the shared variable
    | ReadInc | WriteInc   // one level deeper, as a load and a store
    | ReadDec | WriteDec   // one level up, as a load and a store
    | TestZero             // unlocking: was that the outermost level?
    | FetchMask            // outermost unlock: fetch the old mask while it is still ours
    | DropMutex            // outermost unlock: give up the mutex
    | RestoreMask          // outermost unlock: restore the old mask
    | RawBlock | RawTake | RawHeld | RawRestore  // tet_fork() and tet_spawn() take the mutex themselves

  /**
    One thread.  `reg` is the register of an increment or decrement in flight, and `raw` says that
    the call in progress was made with the mutex taken outside tet_api_lock().  Two fields are
    history: `home` is the signal mask the thread had before its outermost lock, and `touched`
    says that it has changed its own mask since then.
   */
  datatype Thread = Thread(pc: Pc, tmpset: Mask, reg: int, mask: Mask, depth: nat, home: Mask, touched: bool,
                           raw: bool)

  /** The mutex, the three statics of tet_api_lock(), and the threads. */
  datatype State = State(
    blockable: Mask,
    holder: Option<Tid>,
    nestlevel: int,
    ownertid: Tid,
    oset: Mask,
    threads: map<Tid, Thread>)

  datatype Action =
    | CallLock(t: Tid)             // also by tet_spawn(), to report an error while it has the mutex
    | CallUnlock(t: Tid)
    | CallFork(t: Tid)
    | Run(t: Tid)                  // the next statement of t
    | SetMask(t: Tid, m: Mask)     // t changes its own mask outside tet_api_lock()
    | Spawn(t: Tid, m: Mask)       // thread ids may be reused after Exit
    | Exit(t: Tid)

  predicate Init(s: State) {
    s.holder == None && s.nestlevel == 0 && s.threads == map[]
  }

  /** Calls are balanced: a thread unlocks only what it locked, and exits or forks holding nothing. */
  predicate Enabled(s: State, a: Action) {
    match a
    case CallLock(t) => t in s.threads && (s.threads[t].pc == Idle || s.threads[t].pc == RawHeld)
    case CallUnlock(t) => t in s.threads && s.threads[t].pc == Idle && s.threads[t].depth > 0
    case CallFork(t) => t in s.threads && s.threads[t].pc == Idle && s.threads[t].depth == 0
    case Run(t) => t in s.threads && s.threads[t].pc != Idle
                   && (s.threads[t].pc.TakeMutex? || s.threads[t].pc.RawTake? ==> s.holder == None)
    case SetMask(t, _) => t in s.threads && s.threads[t].pc == Idle
    case Spawn(t, _) => t !in s.threads
    case Exit(t) => t in s.threads && s.threads[t].pc == Idle && s.threads[t].depth == 0
  }

  function Put(s: State, t: Tid, th: Thread): State {
    s.(threads := s.threads[t := th])
  }

  function Do(s: State, a: Action): State
    requires Enabled(s, a)
  {
    match a
    case CallLock(t) =>
      var th := s.threads[t];
      if th.pc == RawHeld then Put(s, t, th.(pc := ReadNest, raw := true))
      else Put(s, t, th.(pc := ReadNest, home := if th.depth == 0 then th.mask else th.home))
    case CallUnlock(t) => Put(s, t, s.threads[t].(pc := ReadDec))
    case CallFork(t) => Put(s, t, s.threads[t].(pc := RawBlock, home := s.threads[t].mask))
    case Run(t) => Execute(s, t)
    case SetMask(t, m) =>
      var th := s.threads[t];
      if th.depth == 0 then Put(s, t, th.(mask := m, home := m))
      else Put(s, t, th.(mask := m, touched := true))
    case Spawn(t, m) => Put(s, t, Thread(Idle, {}, 0, m, 0, m, false, false))
    case Exit(t) => s.(threads := s.threads - {t})
  }

  /** The statement at t's program counter. */
  function Execute(s: State, t: Tid): State
    requires Enabled(s, Run(t))
  {
    var th := s.threads[t];
    match th.pc
    case ReadNest => Put(s, t, th.(pc := if s.nestlevel == 0 then BlockSignals else ReadOwner))
    case ReadOwner => Put(s, t, th.(pc := if s.ownertid != t then BlockSignals else ReadInc))
    case BlockSignals =>
      Put(s, t, th.(pc := TakeMutex, tmpset := th.mask, mask := th.mask + s.blockable, touched := false))
    case TakeMutex => Put(s, t, th.(pc := WriteOwner)).(holder := Some(t))
    case WriteOwner => Put(s, t, th.(pc := StoreMask)).(ownertid := t)
    case StoreMask => Put(s, t, th.(pc := ReadInc)).(oset := th.tmpset)
    case ReadInc => Put(s, t, th.(pc := WriteInc, reg := s.nestlevel))
    case WriteInc => Put(s, t, th.(pc := Idle, depth := th.depth + 1)).(nestlevel := th.reg + 1)
    case ReadDec => Put(s, t, th.(pc := WriteDec, reg := s.nestlevel))
    case WriteDec =>
      Put(s, t, th.(pc := TestZero, depth := if th.depth > 0 then th.depth - 1 else 0)).(nestlevel := th.reg - 1)
    case TestZero => Put(s, t, th.(pc := if s.nestlevel == 0 then FetchMask else Idle))
    case FetchMask => Put(s, t, th.(pc := DropMutex, tmpset := s.oset))
    case DropMutex => Put(s, t, th.(pc := RestoreMask)).(holder := None)
    case RestoreMask => Put(s, t, th.(pc := Idle, mask := th.tmpset))
    case RawBlock =>
      Put(s, t, th.(pc := RawTake, tmpset := th.mask, mask := th.mask + s.blockable, touched := false))
    case RawTake => Put(s, t, th.(pc := RawHeld)).(holder := Some(t))
    case RawHeld => Put(s, t, th.(pc := RawRestore)).(holder := None)
    case RawRestore => Put(s, t, th.(pc := Idle, mask := th.tmpset))
  }

  /** A finite run: the states visited and the actions between them. */
  ghost predicate IsRun(states: seq<State>, acts: seq<Action>) {
    && |states| == |acts| + 1
    && Init(states[0])
    && forall i {:trigger acts[i]} :: 0 <= i < |acts| ==>
         Enabled(states[i], acts[i]) && states[i + 1] == Do(states[i], acts[i])
  }

  /** The thread is between taking and dropping tet_top_mtx. */
  predicate Inside(th: Thread) {
    || th.depth > 0 || th.raw
    || th.pc.WriteOwner? || th.pc.StoreMask? || th.pc.ReadInc? || th.pc.WriteInc?
    || th.pc.TestZero? || th.pc.FetchMask? || th.pc.DropMutex? || th.pc.RawHeld?
  }

  /** The thread's signals have been blocked and not yet been restored. */
  predicate Shielded(th: Thread) {
    Inside(th) || th.pc.TakeMutex? || th.pc.RestoreMask? || th.pc.RawTake? || th.pc.RawRestore?
  }

  /** The thread carries its original mask in its own copy of it. */
  predicate CarriesMask(th: Thread) {
    && !th.raw
    && (th.pc.TakeMutex? || th.pc.WriteOwner? || th.pc.StoreMask? || th.pc.DropMutex? || th.pc.RestoreMask?
        || th.pc.RawTake? || th.pc.RawHeld? || th.pc.RawRestore?)
  }

  predicate MayNest(pc: Pc) {
    || pc.Idle? || pc.ReadNest? || pc.ReadOwner? || pc.ReadInc? || pc.WriteInc?
    || pc.ReadDec? || pc.WriteDec? || pc.TestZero?
  }

  /** What links one thread to the mutex, the nesting level and the owner. */
  predicate LockInv(s: State, t: Tid, th: Thread) {
    && (Inside(th) <==> s.holder == Some(t))
    && (Inside(th) ==> s.nestlevel == th.depth)
    && (Inside(th) && !th.pc.WriteOwner? && !th.pc.RawHeld? && !th.raw ==> s.ownertid == t)
    && (th.pc.WriteInc? || th.pc.WriteDec? ==> th.reg == s.nestlevel)
    && (th.pc.ReadDec? || th.pc.WriteDec? ==> th.depth > 0)
    && (th.depth > 0 ==> MayNest(th.pc))
    && (th.pc.ReadOwner? && !Inside(th) ==> s.ownertid != t)
    && (th.raw ==> th.depth == 0 && (th.pc.ReadNest? || th.pc.BlockSignals? || th.pc.TakeMutex?))
  }

  /** What links one thread's signal mask to the shared saved mask. */
  predicate MaskInv(s: State, th: Thread) {
    && (Inside(th) && !th.raw && !th.pc.WriteOwner? && !th.pc.StoreMask? && !th.pc.RawHeld? ==> s.oset == th.home)
    && (CarriesMask(th) ==> th.tmpset == th.home)
    && (!Shielded(th) ==> th.mask == th.home)
    && (Shielded(th) && !th.touched ==> th.mask == th.home + s.blockable)
    && (th.raw || th.pc.RawTake? || th.pc.RawHeld? ==> !th.touched)
  }

  ghost predicate Inv(s: State) {
    && (forall t :: t in s.threads ==> LockInv(s, t, s.threads[t]) && MaskInv(s, s.threads[t]))
    && (s.holder.Some? ==> s.holder.value in s.threads)
    && (s.holder == None ==> s.nestlevel == 0)
  }

  /** A step of t keeps what concerns any other thread u. */
  lemma OthersKept(s: State, t: Tid, u: Tid)
    requires Inv(s) && Enabled(s, Run(t)) && u in s.threads && u != t
    ensures LockInv(Execute(s, t), u, s.threads[u]) && MaskInv(Execute(s, t), s.threads[u])
  {
    assert LockInv(s, u, s.threads[u]) && LockInv(s, t, s.threads[t]);
  }

  lemma ActorKept(s: State, t: Tid)
    requires Inv(s) && Enabled(s, Run(t))
    ensures LockInv(Execute(s, t), t, Execute(s, t).threads[t])
    ensures Execute(s, t).holder == None ==> Execute(s, t).nestlevel == 0
  {
    var th := s.threads[t];
    assert LockInv(s, t, th);
    if s.holder.Some? { assert LockInv(s, s.holder.value, s.threads[s.holder.value]); }
  }

  predicate IsLocking(pc: Pc) {
    pc.ReadNest? || pc.ReadOwner? || pc.BlockSignals? || pc.TakeMutex? || pc.WriteOwner? || pc.StoreMask?
  }

  lemma LockingMaskKept(s: State, t: Tid)
    requires Inv(s) && Enabled(s, Run(t)) && IsLocking(s.threads[t].pc)
    ensures MaskInv(Execute(s, t), Execute(s, t).threads[t])
  {
    assert LockInv(s, t, s.threads[t]) && MaskInv(s, s.threads[t]);
    hide Inv;
  }

  predicate IsRaw(pc: Pc) {
    pc.RawBlock? || pc.RawTake? || pc.RawHeld? || pc.RawRestore?
  }

  lemma RawMaskKept(s: State, t: Tid)
    requires Inv(s) && Enabled(s, Run(t)) && IsRaw(s.threads[t].pc)
    ensures MaskInv(Execute(s, t), Execute(s, t).threads[t])
  {
    assert LockInv(s, t, s.threads[t]) && MaskInv(s, s.threads[t]);
    hide Inv;
  }

  lemma CountingMaskKept(s: State, t: Tid)
    requires Inv(s) && Enabled(s, Run(t)) && !IsLocking(s.threads[t].pc) && !IsRaw(s.threads[t].pc)
    ensures MaskInv(Execute(s, t), Execute(s, t).threads[t])
  {
    assert LockInv(s, t, s.threads[t]) && MaskInv(s, s.threads[t]);
    hide Inv;
  }

  lemma ActorMaskKept(s: State, t: Tid)
    requires Inv(s) && Enabled(s, Run(t))
    ensures MaskInv(Execute(s, t), Execute(s, t).threads[t])
  {
    hide Inv, MaskInv, Execute, IsLocking, IsRaw;
    if IsLocking(s.threads[t].pc) {
      LockingMaskKept(s, t);
    } else if IsRaw(s.threads[t].pc) {
      RawMaskKept(s, t);
    } else {
      CountingMaskKept(s, t);
    }
  }

  lemma CallKept(s: State, a: Action, u: Tid)
    requires Inv(s) && Enabled(s, a) && !a.Run? && u in Do(s, a).threads
    ensures LockInv(Do(s, a), u, Do(s, a).threads[u]) && MaskInv(Do(s, a), Do(s, a).threads[u])
  {
    if u in s.threads { assert LockInv(s, u, s.threads[u]) && MaskInv(s, s.threads[u]); }
  }

  lemma InvStep(s: State, a: Action)
    requires Inv(s) && Enabled(s, a)
    ensures Inv(Do(s, a))
  {
    var s' := Do(s, a);
    if a.Run? {
      ActorKept(s, a.t);
      ActorMaskKept(s, a.t);
    } else if a.t in s.threads {
      assert LockInv(s, a.t, s.threads[a.t]);
    }
    forall u | u in s'.threads
      ensures LockInv(s', u, s'.threads[u]) && MaskInv(s', s'.threads[u])
    {
      if !a.Run? { CallKept(s, a, u); } else if u != a.t { OthersKept(s, a.t, u); }
    }
  }

  lemma {:induction false} InvHolds(states: seq<State>, acts: seq<Action>, i: nat)
    requires IsRun(states, acts) && i < |states|
    ensures Inv(states[i])
  {
    if i > 0 {
      InvHolds(states, acts, i - 1);
      InvStep(states[i - 1], acts[i - 1]);
    }
  }

  /** At most one thread is between taking and dropping the mutex, whatever the guard's unlocked reads saw. */
  lemma MutualExclusion(states: seq<State>, acts: seq<Action>, i: nat, t: Tid, u: Tid)
    requires IsRun(states, acts) && i < |states| && t in states[i].threads && u in states[i].threads
    requires Inside(states[i].threads[t]) && Inside(states[i].threads[u])
    ensures t == u && states[i].holder == Some(t)
  {
    InvHolds(states, acts, i);
    assert LockInv(states[i], t, states[i].threads[t]) && LockInv(states[i], u, states[i].threads[u]);
  }

  /** A positive nestlevel counts the holder's open calls, and ownertid names the holder. */
  lemma NestlevelNamesHolder(states: seq<State>, acts: seq<Action>, i: nat)
    requires IsRun(states, acts) && i < |states| && states[i].nestlevel != 0
    ensures states[i].holder == Some(states[i].ownertid)
    ensures states[i].ownertid in states[i].threads
    ensures states[i].nestlevel == states[i].threads[states[i].ownertid].depth
  {
    InvHolds(states, acts, i);
    var h := states[i].holder.value;
    assert LockInv(states[i], h, states[i].threads[h]);
  }

  /**
    The guard goes on without the mutex only for a thread that already holds it, and goes to take it for
    the others, and for a thread that took the mutex itself.
   */
  lemma GuardSkipsIffHolder(states: seq<State>, acts: seq<Action>, i: nat, t: Tid)
    requires IsRun(states, acts) && i < |acts| && acts[i] == Run(t)
    requires states[i].threads[t].pc.ReadNest? || states[i].threads[t].pc.ReadOwner?
    ensures var pc := states[i + 1].threads[t].pc;
            && (pc == ReadInc ==> states[i].holder == Some(t))
            && (pc == BlockSignals ==> (states[i].holder == Some(t) <==> states[i].threads[t].raw))
            && (pc == ReadInc || pc == BlockSignals || pc == ReadOwner)
  {
    InvHolds(states, acts, i);
    assert LockInv(states[i], t, states[i].threads[t]);
  }

  /** The thread is stopped at the mutex. */
  predicate Waits(s: State, t: Tid) {
    t in s.threads && (s.threads[t].pc.TakeMutex? || s.threads[t].pc.RawTake?) && s.holder != None
  }

  /**
    A thread that waits for the mutex waits for itself exactly if it took the mutex itself and has called
    tet_api_lock() since.  Otherwise it waits for another thread, and that can go on exactly if it does
    not wait for itself.
   */
  lemma WaitsForItselfIff(states: seq<State>, acts: seq<Action>, i: nat, t: Tid)
    requires IsRun(states, acts) && i < |states| && Waits(states[i], t)
    ensures var h := states[i].holder.value;
            && h in states[i].threads
            && (h == t <==> states[i].threads[t].raw)
            && (Enabled(states[i], Run(h)) || Enabled(states[i], CallUnlock(h))
                <==> !(Waits(states[i], h) && states[i].threads[h].raw))
  {
    InvHolds(states, acts, i);
    var h := states[i].holder.value;
    assert LockInv(states[i], h, states[i].threads[h]) && LockInv(states[i], t, states[i].threads[t]);
  }

  /** Once a thread waits for itself, no continuation ever changes that, and nobody else gets the mutex. */
  lemma {:induction false} SelfWaitLasts(states: seq<State>, acts: seq<Action>, i: nat, j: nat, t: Tid)
    requires IsRun(states, acts) && i <= j < |states| && Waits(states[i], t) && states[i].threads[t].raw
    ensures t in states[j].threads && states[j].threads[t] == states[i].threads[t] && states[j].holder == Some(t)
  {
    InvHolds(states, acts, i);
    assert LockInv(states[i], t, states[i].threads[t]);
    if i < j {
      SelfWaitLasts(states, acts, i, j - 1, t);
      InvHolds(states, acts, j - 1);
      SelfWaitStep(states[j - 1], acts[j - 1], t);
    }
  }

  lemma SelfWaitStep(s: State, a: Action, t: Tid)
    requires Inv(s) && Enabled(s, a) && Waits(s, t) && s.threads[t].raw && s.holder == Some(t)
    ensures var s' := Do(s, a);
            t in s'.threads && s'.threads[t] == s.threads[t] && s'.holder == Some(t)
  {
    assert LockInv(s, t, s.threads[t]);
    if a.t in s.threads { assert LockInv(s, a.t, s.threads[a.t]); }
  }

  /** The run goes on with a. */
  lemma Next(states: seq<State>, acts: seq<Action>, a: Action) returns (states': seq<State>, acts': seq<Action>)
    requires IsRun(states, acts) && Enabled(states[|acts|], a)
    ensures IsRun(states', acts') && |states'| == |acts'| + 1 && states'[|acts'|] == Do(states[|acts|], a)
    ensures acts' == acts + [a]
  {
    var s' := Do(states[|acts|], a);
    states', acts' := states + [s'], acts + [a];
    forall i | 0 <= i < |acts'|
      ensures Enabled(states'[i], acts'[i]) && states'[i + 1] == Do(states'[i], acts'[i])
    {
      if i < |acts| { assert Enabled(states[i], acts[i]) && states[i + 1] == Do(states[i], acts[i]); }
    }
  }

  /** Thread 0, alone, has taken the mutex in tet_spawn(). */
  lemma SpawnLocks() returns (states: seq<State>, acts: seq<Action>)
    ensures IsRun(states, acts) && |states| == |acts| + 1
    ensures var s := states[|acts|];
            && s.holder == Some(0) && s.nestlevel == 0 && 0 in s.threads
            && s.threads[0].pc == RawHeld && !s.threads[0].raw
  {
    states, acts := [State({}, None, 0, 0, {}, map[])], [];
    hide IsRun;
    states, acts := Next(states, acts, Spawn(0, {}));
    states, acts := Next(states, acts, CallFork(0));
    states, acts := Next(states, acts, Run(0));
    states, acts := Next(states, acts, Run(0));
  }

  /** Then pipe() fails, and the thread waits for itself in the report of that. */
  lemma SpawnReportWaitsForItself() returns (states: seq<State>, acts: seq<Action>)
    ensures IsRun(states, acts) && |states| == |acts| + 1
    ensures Waits(states[|acts|], 0) && states[|acts|].holder == Some(0)
  {
    states, acts := SpawnLocks();
    hide IsRun;
    states, acts := Next(states, acts, CallLock(0));
    states, acts := Next(states, acts, Run(0));
    states, acts := Next(states, acts, Run(0));
  }

  /** A state in which there is only thread 0. */
  function Lone(holder: Option<Tid>, nestlevel: int, oset: Mask, th: Thread): State {
    State({1, 2}, holder, nestlevel, 0, oset, map[0 := th])
  }

  /** A run with thread 0 alone, given by its last state. */
  ghost predicate Reached(states: seq<State>, acts: seq<Action>, s: State) {
    IsRun(states, acts) && states[|acts|] == s
  }

  lemma Goes(states: seq<State>, acts: seq<Action>, s: State, a: Action, s': State)
    returns (states': seq<State>, acts': seq<Action>)
    requires Reached(states, acts, s) && Enabled(s, a) && Do(s, a) == s'
    ensures Reached(states', acts', s') && acts' == acts + [a]
  {
    states', acts' := Next(states, acts, a);
  }

  /** It calls tet_api_lock() and gets the mutex. */
  lemma LockBegins(m: Mask) returns (states: seq<State>, acts: seq<Action>)
    ensures Reached(states, acts, Lone(Some(0), 0, {}, Thread(WriteOwner, m, 0, m + {1, 2}, 0, m, false, false)))
  {
    var s := State({1, 2}, None, 0, 0, {}, map[]);
    states, acts := [s], [];
    assert Reached(states, acts, s);
    hide Reached;
    var th := Thread(Idle, {}, 0, m, 0, m, false, false);
    var s0 := Lone(None, 0, {}, th);
    states, acts := Goes(states, acts, s, Spawn(0, m), s0);
    var s1 := Lone(None, 0, {}, th.(pc := ReadNest));
    states, acts := Goes(states, acts, s0, CallLock(0), s1);
    var s2 := Lone(None, 0, {}, th.(pc := BlockSignals));
    states, acts := Goes(states, acts, s1, Run(0), s2);
    var s3 := Lone(None, 0, {}, th.(pc := TakeMutex, tmpset := m, mask := m + {1, 2}));
    states, acts := Goes(states, acts, s2, Run(0), s3);
    var s4 := Lone(Some(0), 0, {}, th.(pc := WriteOwner, tmpset := m, mask := m + {1, 2}));
    states, acts := Goes(states, acts, s3, Run(0), s4);
  }

  /** The call returns. */
  lemma LockRun(m: Mask) returns (states: seq<State>, acts: seq<Action>)
    ensures Reached(states, acts, Lone(Some(0), 1, m, Thread(Idle, m, 0, m + {1, 2}, 1, m, false, false)))
  {
    hide Reached;
    states, acts := LockBegins(m);
    var th := Thread(WriteOwner, m, 0, m + {1, 2}, 0, m, false, false);
    var s1 := Lone(Some(0), 0, {}, th.(pc := StoreMask));
    states, acts := Goes(states, acts, Lone(Some(0), 0, {}, th), Run(0), s1);
    var s2 := Lone(Some(0), 0, m, th.(pc := ReadInc));
    states, acts := Goes(states, acts, s1, Run(0), s2);
    var s3 := Lone(Some(0), 0, m, th.(pc := WriteInc));
    states, acts := Goes(states, acts, s2, Run(0), s3);
    states, acts := Goes(states, acts, s3, Run(0), Lone(Some(0), 1, m, th.(pc := Idle, depth := 1)));
  }

  /** The thread changes its signal mask inside and unlocks. */
  lemma UnlockBegins(m: Mask, m': Mask) returns (states: seq<State>, acts: seq<Action>)
    ensures Reached(states, acts, Lone(Some(0), 0, m, Thread(FetchMask, m, 1, m', 0, m, true, false)))
    ensures SetMask(0, m') in acts
  {
    hide Reached;
    states, acts := LockRun(m);
    var th := Thread(Idle, m, 1, m', 1, m, true, false);
    var s0 := Lone(Some(0), 1, m, Thread(Idle, m, 0, m + {1, 2}, 1, m, false, false));
    var s1 := Lone(Some(0), 1, m, th.(reg := 0));
    states, acts := Goes(states, acts, s0, SetMask(0, m'), s1);
    assert acts[|acts| - 1] == SetMask(0, m');
    var s2 := Lone(Some(0), 1, m, th.(pc := ReadDec, reg := 0));
    states, acts := Goes(states, acts, s1, CallUnlock(0), s2);
    var s3 := Lone(Some(0), 1, m, th.(pc := WriteDec));
    states, acts := Goes(states, acts, s2, Run(0), s3);
    var s4 := Lone(Some(0), 0, m, th.(pc := TestZero, depth := 0));
    states, acts := Goes(states, acts, s3, Run(0), s4);
    states, acts := Goes(states, acts, s4, Run(0), Lone(Some(0), 0, m, th.(pc := FetchMask, depth := 0)));
  }

  /** A run in which the thread has its old mask back afterwards. */
  lemma MaskChangedInside(m: Mask, m': Mask) returns (states: seq<State>, acts: seq<Action>)
    ensures Reached(states, acts, Lone(None, 0, m, Thread(Idle, m, 1, m, 0, m, true, false)))
    ensures SetMask(0, m') in acts
  {
    hide Reached;
    states, acts := UnlockBegins(m, m');
    var th := Thread(FetchMask, m, 1, m', 0, m, true, false);
    var s1 := Lone(Some(0), 0, m, th.(pc := DropMutex));
    states, acts := Goes(states, acts, Lone(Some(0), 0, m, th), Run(0), s1);
    var s2 := Lone(None, 0, m, th.(pc := RestoreMask));
    states, acts := Goes(states, acts, s1, Run(0), s2);
    states, acts := Goes(states, acts, s2, Run(0), Lone(None, 0, m, th.(pc := Idle, mask := m)));
  }

  /** The two assertions at the start of an unlock hold. */
  lemma UnlockAssertionsHold(states: seq<State>, acts: seq<Action>, i: nat, t: Tid)
    requires IsRun(states, acts) && i < |states| && t in states[i].threads
    requires states[i].threads[t].pc.ReadDec?
    ensures states[i].nestlevel > 0 && states[i].ownertid == t
  {
    InvHolds(states, acts, i);
    assert LockInv(states[i], t, states[i].threads[t]);
  }

  // ---------------------------------------------------------------- calls

  /** The depth at which the call in progress will return. */
  function Target(th: Thread): int {
    if IsLocking(th.pc) || th.pc.ReadInc? || th.pc.WriteInc? then th.depth + 1
    else if th.pc.ReadDec? || th.pc.WriteDec? then th.depth - 1
    else th.depth
  }

  /** The most steps of its own that a thread has yet to take in it. */
  function StepsLeft(pc: Pc): nat {
    match pc
    case Idle => 0
    case ReadNest => 8
    case ReadOwner => 7
    case BlockSignals => 6
    case TakeMutex => 5
    case WriteOwner => 4
    case StoreMask => 3
    case ReadInc => 2
    case WriteInc => 1
    case ReadDec => 6
    case WriteDec => 5
    case TestZero => 4
    case FetchMask => 3
    case DropMutex => 2
    case RestoreMask => 1
    case RawBlock => 4
    case RawTake => 3
    case RawHeld => 2
    case RawRestore => 1
  }

  lemma LessLeft(s: State, t: Tid)
    requires Enabled(s, Run(t))
    ensures StepsLeft(Execute(s, t).threads[t].pc) < StepsLeft(s.threads[t].pc)
  {
  }

  lemma TargetKept(s: State, t: Tid)
    requires Enabled(s, Run(t)) && (s.threads[t].pc.WriteDec? ==> s.threads[t].depth > 0)
    ensures Target(Execute(s, t).threads[t]) == Target(s.threads[t])
  {
  }

  lemma DepthPositive(s: State, t: Tid)
    requires Inv(s) && t in s.threads && s.threads[t].pc.WriteDec?
    ensures s.threads[t].depth > 0
  {
    assert LockInv(s, t, s.threads[t]);
  }

  /** In a call, a thread only takes its own steps. */
  lemma InCallStep(s: State, a: Action, t: Tid)
    requires Enabled(s, a) && t in s.threads && s.threads[t].pc != Idle && a != CallLock(t)
    ensures t in Do(s, a).threads && (a != Run(t) ==> Do(s, a).threads[t] == s.threads[t])
  {
  }

  /** How many of the steps from i to j are t's. */
  function StepsTaken(acts: seq<Action>, t: Tid, i: nat, j: nat): nat
    requires i <= j <= |acts|
  {
    if i == j then 0 else StepsTaken(acts, t, i, j - 1) + if acts[j - 1] == Run(t) then 1 else 0
  }

  /** t is in one call from i to j. */
  ghost predicate InCall(states: seq<State>, t: Tid, i: nat, j: nat)
    requires i <= j < |states|
  {
    forall k :: i <= k < j ==>
      t in states[k].threads && states[k].threads[t].pc != Idle && states[k].threads[t].pc != RawHeld
  }

  lemma CallStep(states: seq<State>, acts: seq<Action>, t: Tid, k: nat)
    requires IsRun(states, acts) && k < |acts| && t in states[k].threads && states[k].threads[t].pc != Idle
    requires acts[k] != CallLock(t)
    ensures t in states[k + 1].threads
    ensures var th, th' := states[k].threads[t], states[k + 1].threads[t];
            if acts[k] == Run(t) then Target(th') == Target(th) && StepsLeft(th'.pc) < StepsLeft(th.pc) else th' == th
  {
    InvHolds(states, acts, k);
    var s, a := states[k], acts[k];
    assert Enabled(s, a) && states[k + 1] == Do(s, a);
    hide IsRun, Inv, Enabled, Execute, StepsLeft, Target;
    InCallStep(s, a, t);
    if a == Run(t) {
      if s.threads[t].pc.WriteDec? { DepthPositive(s, t); }
      LessLeft(s, t);
      TargetKept(s, t);
    }
  }

  lemma {:induction false} CallGoesOn(states: seq<State>, acts: seq<Action>, t: Tid, i: nat, j: nat)
    requires IsRun(states, acts) && i <= j < |states| && InCall(states, t, i, j) && t in states[i].threads
    requires forall k :: i <= k < j ==> acts[k] != CallLock(t)
    ensures t in states[j].threads && Target(states[j].threads[t]) == Target(states[i].threads[t])
    ensures StepsTaken(acts, t, i, j) + StepsLeft(states[j].threads[t].pc) <= StepsLeft(states[i].threads[t].pc)
  {
    hide Enabled, Do, StepsLeft, Target;
    if i < j {
      CallGoesOn(states, acts, t, i, j - 1);
      assert states[j - 1].threads[t].pc != Idle;
      CallStep(states, acts, t, j - 1);
    }
  }

  /**
    tet_api_lock() and tet_api_unlock() return within eight steps of the caller's own, not counting what
    others do, one level deeper and one level up; the mutex is the caller's exactly if it is still inside.
   */
  lemma CallReturns(states: seq<State>, acts: seq<Action>, t: Tid, i: nat, j: nat)
    requires IsRun(states, acts) && i < j < |states| && (acts[i] == CallLock(t) || acts[i] == CallUnlock(t))
    requires t in states[i].threads && states[i].threads[t].pc == Idle && InCall(states, t, i + 1, j)
    ensures StepsTaken(acts, t, i + 1, j) <= 8 && t in states[j].threads
    ensures var th, d := states[j].threads[t], states[i].threads[t].depth;
            if th.pc != Idle then StepsTaken(acts, t, i + 1, j) < 8
            else && j > i + 1 && th.depth == (if acts[i] == CallLock(t) then d + 1 else d - 1)
                 && (states[j].holder == Some(t) <==> th.depth > 0)
  {
    hide Enabled, Do, InCall, StepsLeft, Target;
    CallBegins(states, acts, t, i);
    NoCallInside(states, acts, t, i + 1, j);
    CallGoesOn(states, acts, t, i + 1, j);
    InCallOrNot(states[j].threads[t]);
    if states[j].threads[t].pc == Idle { HoldsOutside(states, acts, t, j); }
  }

  lemma InCallOrNot(th: Thread)
    ensures if th.pc == Idle then Target(th) == th.depth && StepsLeft(th.pc) == 0 else StepsLeft(th.pc) > 0
  {
  }

  lemma HoldsOutside(states: seq<State>, acts: seq<Action>, t: Tid, j: nat)
    requires IsRun(states, acts) && j < |states| && t in states[j].threads && states[j].threads[t].pc == Idle
    ensures states[j].holder == Some(t) <==> states[j].threads[t].depth > 0
  {
    InvHolds(states, acts, j);
    assert LockInv(states[j], t, states[j].threads[t]);
  }

  lemma CallBegins(states: seq<State>, acts: seq<Action>, t: Tid, i: nat)
    requires IsRun(states, acts) && i < |acts| && (acts[i] == CallLock(t) || acts[i] == CallUnlock(t))
    requires t in states[i].threads && states[i].threads[t].pc == Idle
    ensures t in states[i + 1].threads && !states[i + 1].threads[t].raw
    ensures var th, d := states[i + 1].threads[t], states[i].threads[t].depth;
            && 0 < StepsLeft(th.pc) <= 8 && Target(th) == if acts[i] == CallLock(t) then d + 1 else d - 1
  {
    InvHolds(states, acts, i);
    assert LockInv(states[i], t, states[i].threads[t]);
    assert Enabled(states[i], acts[i]) && states[i + 1] == Do(states[i], acts[i]);
  }

  /** Nobody calls tet_api_lock() while in it. */
  lemma NoCallInside(states: seq<State>, acts: seq<Action>, t: Tid, i: nat, j: nat)
    requires IsRun(states, acts) && i <= j < |states| && InCall(states, t, i, j)
    ensures forall k :: i <= k < j ==> acts[k] != CallLock(t)
  {
    forall k | i <= k < j ensures acts[k] != CallLock(t) {
      assert Enabled(states[k], acts[k]);
      assert states[k].threads[t].pc != Idle;
    }
  }

  /** The thread is outside every API call. */
  predicate Outside(s: State, t: Tid) {
    t in s.threads && s.threads[t].pc == Idle && s.threads[t].depth == 0
  }

  /** From i to j the thread lives, and changes its own mask at most while `nested` (its depth positive or not). */
  ghost predicate MaskLeftAlone(states: seq<State>, acts: seq<Action>, t: Tid, i: nat, j: nat, nested: bool)
    requires i <= j < |states| && |states| == |acts| + 1
  {
    forall k {:trigger acts[k]} :: i <= k < j ==>
      && acts[k] != Exit(t)
      && (acts[k].SetMask? && acts[k].t == t && t in states[k].threads
          ==> (nested <==> states[k].threads[t].depth > 0))
  }

  lemma HomeStep(s: State, a: Action, t: Tid)
    requires Inv(s) && Enabled(s, a) && t in s.threads && a != Exit(t)
    requires a.SetMask? && a.t == t ==> s.threads[t].depth > 0
    ensures t in Do(s, a).threads && Do(s, a).threads[t].home == s.threads[t].home
  {
    assert LockInv(s, t, s.threads[t]) && MaskInv(s, s.threads[t]);
  }

  lemma TouchedStep(s: State, a: Action, t: Tid)
    requires Inv(s) && Enabled(s, a) && t in s.threads && a != Exit(t)
    requires a.SetMask? && a.t == t ==> s.threads[t].depth == 0
    requires Shielded(s.threads[t]) ==> !s.threads[t].touched
    ensures t in Do(s, a).threads
    ensures Shielded(Do(s, a).threads[t]) ==> !Do(s, a).threads[t].touched
  {
    assert LockInv(s, t, s.threads[t]);
  }

  lemma {:induction false} HomeKept(states: seq<State>, acts: seq<Action>, t: Tid, i: nat, j: nat)
    requires IsRun(states, acts) && i <= j < |states| && Outside(states[i], t)
    requires MaskLeftAlone(states, acts, t, i, j, true)
    ensures t in states[j].threads && states[j].threads[t].home == states[i].threads[t].mask
  {
    InvHolds(states, acts, i);
    assert MaskInv(states[i], states[i].threads[t]);
    if i < j {
      HomeKept(states, acts, t, i, j - 1);
      InvHolds(states, acts, j - 1);
      HomeStep(states[j - 1], acts[j - 1], t);
    }
  }

  /**
    Although the saved mask is one static shared by all threads, a thread back outside every API
    call has exactly the mask it had before, even if it changed its mask inside the calls.
   */
  lemma MaskRestored(states: seq<State>, acts: seq<Action>, t: Tid, i: nat, j: nat)
    requires IsRun(states, acts) && i <= j < |states| && Outside(states[i], t)
    requires MaskLeftAlone(states, acts, t, i, j, true)
    requires Outside(states[j], t)
    ensures states[j].threads[t].mask == states[i].threads[t].mask
  {
    HomeKept(states, acts, t, i, j);
    InvHolds(states, acts, j);
    assert MaskInv(states[j], states[j].threads[t]);
  }

  lemma {:induction false} TouchedClear(states: seq<State>, acts: seq<Action>, t: Tid, i: nat, j: nat)
    requires IsRun(states, acts) && i <= j < |states| && Outside(states[i], t)
    requires MaskLeftAlone(states, acts, t, i, j, false)
    ensures t in states[j].threads && (Shielded(states[j].threads[t]) ==> !states[j].threads[t].touched)
  {
    InvHolds(states, acts, i);
    assert LockInv(states[i], t, states[i].threads[t]);
    if i < j {
      TouchedClear(states, acts, t, i, j - 1);
      InvHolds(states, acts, j - 1);
      assert acts[j - 1] != Exit(t);
      TouchedStep(states[j - 1], acts[j - 1], t);
    }
  }

  /**
    From the outermost lock to the outermost unlock, at any depth, exactly the blockable signals are blocked
    beside those that the thread had blocked before.
   */
  lemma SignalsBlockedInside(states: seq<State>, acts: seq<Action>, t: Tid, i: nat, j: nat)
    requires IsRun(states, acts) && i <= j < |states| && Outside(states[i], t)
    requires MaskLeftAlone(states, acts, t, i, j, false)
    ensures t in states[j].threads
    ensures var th := states[j].threads[t]; Inside(th) ==> th.mask == th.home + states[j].blockable
  {
    TouchedClear(states, acts, t, i, j);
    InvHolds(states, acts, j);
    assert MaskInv(states[j], states[j].threads[t]);
  }
}

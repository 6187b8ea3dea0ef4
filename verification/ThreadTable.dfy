/**
  The table of threads a test has created: entries are added or updated by thread id, moved to the
  head when somebody starts to join the thread, removed afterwards, and cleaned up from the tail.
 */
module ThreadTable {
  import opened LinkedList
  import opened Options

  datatype Thread = Thread(tid: int, waittime: int)

  type Entry = Elem<Thread>

  // ---------------------------------------------------------------- the table as a sequence

  /** The first position from i on that holds the thread id, or |ts|. */
  function IndexFrom(ts: seq<Thread>, tid: int, i: nat): (k: nat)
    requires i <= |ts|
    ensures i <= k <= |ts|
    ensures forall j :: i <= j < k ==> ts[j].tid != tid
    ensures k < |ts| ==> ts[k].tid == tid
    decreases |ts| - i
  {
    if i == |ts| || ts[i].tid == tid then i else IndexFrom(ts, tid, i + 1)
  }

  function Index(ts: seq<Thread>, tid: int): nat {
    IndexFrom(ts, tid, 0)
  }

  predicate Has(ts: seq<Thread>, tid: int) {
    Index(ts, tid) < |ts|
  }

  predicate Unique(ts: seq<Thread>) {
    forall i, j :: 0 <= i < j < |ts| ==> ts[i].tid != ts[j].tid
  }

  lemma IndexIs(ts: seq<Thread>, k: nat)
    requires Unique(ts) && k < |ts|
    ensures Index(ts, ts[k].tid) == k
  {
    var i := Index(ts, ts[k].tid);
    assert i <= k;
  }

  datatype Op = Add(thread: Thread) | Raise(tid: int) | Remove(tid: int) | Empty

  function Apply(ts: seq<Thread>, op: Op): seq<Thread> {
    match op
    case Add(t) => var k := Index(ts, t.tid); if k < |ts| then ts[k := t] else [t] + ts
    case Raise(tid) => var k := Index(ts, tid); if k < |ts| then Fronted(ts, k) else ts
    case Remove(tid) => var k := Index(ts, tid); if k < |ts| then Without(ts, k) else ts
    case Empty => []
  }

  /** How long the cleanup waits for a thread, if it is in the table. */
  function WaitTime(ts: seq<Thread>, tid: int): Option<int> {
    var k := Index(ts, tid);
    if k < |ts| then Some(ts[k].waittime) else None
  }

  /** Each operation changes what the table says about one thread at most. */
  lemma WaitTimeAfter(ts: seq<Thread>, op: Op, tid: int)
    requires Unique(ts)
    ensures WaitTime(Apply(ts, op), tid)
            == match op
               case Add(t) => if tid == t.tid then Some(t.waittime) else WaitTime(ts, tid)
               case Raise(_) => WaitTime(ts, tid)
               case Remove(t) => if tid == t then None else WaitTime(ts, tid)
               case Empty => None
  {
    var k, r := Index(ts, tid), Apply(ts, op);
    UniqueKept(ts, op);
    match op
    case Add(t) =>
      if tid == t.tid {
        var i := if k < |ts| then k else 0;
        assert r[i] == t;
        IndexIs(r, i);
      } else if k < |ts| {
        AddedIndex(ts, t, tid);
      } else {
        assert forall i :: 0 <= i < |r| ==> r[i] == t || r[i] in ts;
      }
    case Raise(u) =>
      if Has(ts, u) {
        if k < |ts| {
          FrontedIndex(ts, Index(ts, u), tid);
        } else {
          assert forall i :: 0 <= i < |r| ==> r[i] in ts;
        }
      }
    case Remove(u) =>
      if Has(ts, u) {
        if tid == u {
          RemovedIsGone(ts, Index(ts, u));
        } else if k < |ts| {
          WithoutIndex(ts, Index(ts, u), tid);
        } else {
          assert forall i :: 0 <= i < |r| ==> r[i] in ts;
        }
      }
    case Empty =>
  }

  // ---------------------------------------------------------------- whole runs

  /** The table, and for each thread the time it was last put at the head. */
  datatype State = State(table: seq<Thread>, stamps: map<int, nat>, now: nat)

  /** Does this operation put a thread at the head? */
  predicate PutsAtHead(ts: seq<Thread>, op: Op) {
    match op
    case Add(t) => !Has(ts, t.tid)
    case Raise(tid) => Has(ts, tid)
    case _ => false
  }

  function Step(s: State, op: Op): State {
    State(Apply(s.table, op),
          if PutsAtHead(s.table, op) then s.stamps[if op.Add? then op.thread.tid else op.tid := s.now] else s.stamps,
          s.now + 1)
  }

  /** Distinct threads, nearer the head if put there later. */
  predicate Inv(s: State) {
    && Unique(s.table)
    && (forall t :: t in s.stamps ==> s.stamps[t] < s.now)
    && (forall i :: 0 <= i < |s.table| ==> s.table[i].tid in s.stamps)
    && (forall i, j :: 0 <= i < j < |s.table| ==> s.stamps[s.table[i].tid] > s.stamps[s.table[j].tid])
  }

  predicate IsRun(states: seq<State>, ops: seq<Op>) {
    && |states| == |ops| + 1 && states[0] == State([], map[], 0)
    && forall i {:trigger ops[i]} :: 0 <= i < |ops| ==> states[i + 1] == Step(states[i], ops[i])
  }

  lemma AddMoves(s: State, t: Thread)
    requires Inv(s)
    ensures Inv(Step(s, Add(t)))
  {
    var k, r := Index(s.table, t.tid), Step(s, Add(t)).table;
    assert forall i :: 0 <= i < |r| && i != k && k < |s.table| ==> r[i] == s.table[i];
    assert forall i :: 0 < i < |r| && k == |s.table| ==> r[i] == s.table[i - 1];
  }

  lemma RaiseMoves(s: State, tid: int)
    requires Inv(s) && Has(s.table, tid)
    ensures Inv(Step(s, Raise(tid)))
  {
    var r := Step(s, Raise(tid));
    assert r.table == Fronted(s.table, Index(s.table, tid)) && r.stamps == s.stamps[tid := s.now];
    assert forall i :: 0 < i < |r.table| ==> r.table[i].tid != tid;
  }

  lemma InvStep(s: State, op: Op)
    requires Inv(s)
    ensures Inv(Step(s, op))
  {
    match op
    case Add(t) => AddMoves(s, t);
    case Raise(tid) => if Has(s.table, tid) { RaiseMoves(s, tid); }
    case _ =>
  }

  lemma UniqueKept(ts: seq<Thread>, op: Op)
    requires Unique(ts)
    ensures Unique(Apply(ts, op))
  {
    match op
    case Raise(tid) => if Has(ts, tid) { assert Unique(Fronted(ts, Index(ts, tid))); }
    case _ =>
  }

  lemma {:induction false} InvHolds(states: seq<State>, ops: seq<Op>, n: nat)
    requires IsRun(states, ops) && n <= |ops|
    ensures Inv(states[n])
  {
    if n > 0 {
      InvHolds(states, ops, n - 1);
      InvStep(states[n - 1], ops[n - 1]);
    }
  }

  /** tet_cln_threads() reaches a before b. */
  predicate CleanedBefore(ts: seq<Thread>, a: int, b: int) {
    Index(ts, a) > Index(ts, b)
  }

  /** In every run: cleanup reaches a before b exactly when b was put at the head after a was. */
  lemma CleanupOrder(states: seq<State>, ops: seq<Op>, n: nat, a: int, b: int)
    requires IsRun(states, ops) && n <= |ops| && Has(states[n].table, a) && Has(states[n].table, b)
    ensures a in states[n].stamps && b in states[n].stamps
    ensures CleanedBefore(states[n].table, a, b) <==> states[n].stamps[a] < states[n].stamps[b]
  {
    InvHolds(states, ops, n);
    var ts := states[n].table;
    assert ts[Index(ts, a)].tid == a && ts[Index(ts, b)].tid == b;
  }

  /** The operation finds the thread's entry in the table and does not move it to the head. */
  predicate Undisturbed(s: State, op: Op, tid: int) {
    Has(s.table, tid) && op != Raise(tid)
  }

  lemma StampStep(s: State, op: Op, tid: int)
    requires (forall t :: t in s.stamps ==> s.stamps[t] < s.now) && tid in s.stamps
    ensures tid in Step(s, op).stamps && s.stamps[tid] <= Step(s, op).stamps[tid]
    ensures Undisturbed(s, op, tid) ==> s.stamps[tid] == Step(s, op).stamps[tid]
  {
  }

  lemma {:induction false} StampGrows(states: seq<State>, ops: seq<Op>, m: nat, n: nat, tid: int)
    requires IsRun(states, ops) && m <= n <= |ops| && tid in states[m].stamps
    ensures tid in states[n].stamps && states[m].stamps[tid] <= states[n].stamps[tid]
  {
    if m < n {
      StampGrows(states, ops, m, n - 1, tid);
      InvHolds(states, ops, n - 1);
      StampStep(states[n - 1], ops[n - 1], tid);
    }
  }

  predicate SameStamp(s: State, s': State, tid: int) {
    tid in s.stamps && tid in s'.stamps && s.stamps[tid] == s'.stamps[tid]
  }

  lemma {:induction false} StampKept(states: seq<State>, m: nat, n: nat, tid: int)
    requires m <= n < |states| && tid in states[m].stamps
    requires forall i :: m <= i < n ==> SameStamp(states[i], states[i + 1], tid)
    ensures SameStamp(states[m], states[n], tid)
  {
    if m < n {
      StampKept(states, m, n - 1, tid);
      assert SameStamp(states[n - 1], states[n - 1 + 1], tid);
    }
  }

  lemma UndisturbedStep(states: seq<State>, ops: seq<Op>, i: nat, tid: int)
    requires IsRun(states, ops) && i < |ops| && Undisturbed(states[i], ops[i], tid)
    ensures SameStamp(states[i], states[i + 1], tid)
  {
    InvHolds(states, ops, i);
    assert states[i].table[Index(states[i].table, tid)].tid == tid;
    StampStep(states[i], ops[i], tid);
  }

  /**
    Operation m is a join moving its target to the head.  As long as the joining thread's own entry
    stays in the table and is not itself moved to the head, it is cleaned up before the target.
   */
  lemma JoinerCleanedFirst(states: seq<State>, ops: seq<Op>, m: nat, n: nat, joiner: int, target: int)
    requires IsRun(states, ops) && m < n <= |ops| && joiner != target
    requires ops[m] == Raise(target) && Has(states[m].table, target)
    requires forall i {:trigger Undisturbed(states[i], ops[i], joiner)} :: m <= i < n ==>
               Undisturbed(states[i], ops[i], joiner)
    requires Has(states[n].table, joiner) && Has(states[n].table, target)
    ensures CleanedBefore(states[n].table, joiner, target)
  {
    forall i | m <= i < n ensures SameStamp(states[i], states[i + 1], joiner) {
      assert Undisturbed(states[i], ops[i], joiner);
      UndisturbedStep(states, ops, i, joiner);
    }
    StampKept(states, m, n, joiner);
    InvHolds(states, ops, m);
    assert states[m + 1] == Step(states[m], ops[m]);
    StampGrows(states, ops, m + 1, n, target);
    CleanupOrder(states, ops, n, joiner, target);
  }

  predicate HasBoth(ts: seq<Thread>, j: int, g: int) {
    Has(ts, j) && Has(ts, g)
  }

  /** Where the other threads are after one has been moved to the head. */
  lemma FrontedIndex(ts: seq<Thread>, k: nat, tid: int)
    requires Unique(ts) && k < |ts| && Has(ts, tid)
    ensures var i := Index(ts, tid);
            Index(Fronted(ts, k), tid) == if i == k then 0 else if i < k then i + 1 else i
  {
    var i, r := Index(ts, tid), Fronted(ts, k);
    UniqueKept(ts, Raise(ts[k].tid));
    IndexIs(ts, k);
    var i' := if i == k then 0 else if i < k then i + 1 else i;
    assert r[i'] == ts[i];
    IndexIs(r, i');
  }

  lemma WithoutIndex(ts: seq<Thread>, k: nat, tid: int)
    requires Unique(ts) && k < |ts| && Has(ts, tid) && Index(ts, tid) != k
    ensures Index(Without(ts, k), tid) == if Index(ts, tid) < k then Index(ts, tid) else Index(ts, tid) - 1
  {
    var i, r := Index(ts, tid), Without(ts, k);
    UniqueKept(ts, Remove(ts[k].tid));
    IndexIs(ts, k);
    var i' := if i < k then i else i - 1;
    assert r[i'] == ts[i];
    IndexIs(r, i');
  }

  lemma AddedIndex(ts: seq<Thread>, t: Thread, tid: int)
    requires Unique(ts) && Has(ts, tid)
    ensures Index(Apply(ts, Add(t)), tid) == Index(ts, tid) + if Has(ts, t.tid) then 0 else 1
  {
    var i, k, r := Index(ts, tid), Index(ts, t.tid), Apply(ts, Add(t));
    UniqueKept(ts, Add(t));
    if k < |ts| {
      if k == i { assert r[i] == t; } else { assert r[i] == ts[i]; }
      IndexIs(r, i);
    } else {
      assert r[i + 1] == ts[i];
      IndexIs(r, i + 1);
    }
  }

  /**
    What a caller can check: with j ahead of g in the cleanup, as while j joins g, a further call on the
    table that leaves both in it breaks the order exactly if it starts a join of j.
   */
  lemma OrderKeptIff(ts: seq<Thread>, op: Op, j: int, g: int)
    requires Unique(ts) && HasBoth(ts, j, g) && CleanedBefore(ts, j, g) && HasBoth(Apply(ts, op), j, g)
    ensures CleanedBefore(Apply(ts, op), j, g) <==> op != Raise(j)
  {
    match op
    case Add(t) =>
      AddedIndex(ts, t, j);
      AddedIndex(ts, t, g);
    case Raise(tid) =>
      var k := Index(ts, tid);
      if k < |ts| {
        FrontedIndex(ts, k, j);
        FrontedIndex(ts, k, g);
      }
    case Remove(tid) =>
      var k := Index(ts, tid);
      if k < |ts| {
        RemovedIsGone(ts, k);
        WithoutIndex(ts, k, j);
        WithoutIndex(ts, k, g);
      }
    case Empty =>
  }

  lemma RemovedIsGone(ts: seq<Thread>, k: nat)
    requires Unique(ts) && k < |ts|
    ensures !Has(Without(ts, k), ts[k].tid)
  {
    var r := Without(ts, k);
    forall i | 0 <= i < |r| ensures r[i].tid != ts[k].tid { assert r[i] == ts[if i < k then i else i + 1]; }
  }

  predicate OrderHolds(states: seq<State>, m: nat, n: nat, j: int, g: int)
    requires m <= n < |states|
  {
    forall k :: m <= k <= n ==> CleanedBefore(states[k].table, j, g)
  }

  predicate NoJoinOf(ops: seq<Op>, m: nat, n: nat, j: int)
    requires m <= n <= |ops|
  {
    forall k :: m <= k < n ==> ops[k] != Raise(j)
  }

  lemma OneMoreOp(states: seq<State>, ops: seq<Op>, m: nat, n: nat, j: int, g: int)
    requires m < n <= |ops| && |states| == |ops| + 1
    ensures OrderHolds(states, m, n, j, g)
            <==> OrderHolds(states, m, n - 1, j, g) && CleanedBefore(states[n].table, j, g)
    ensures NoJoinOf(ops, m, n, j) <==> NoJoinOf(ops, m, n - 1, j) && ops[n - 1] != Raise(j)
  {
    hide CleanedBefore;
  }

  lemma OrderStep(states: seq<State>, ops: seq<Op>, l: nat, j: int, g: int)
    requires IsRun(states, ops) && l < |ops| && CleanedBefore(states[l].table, j, g)
    requires HasBoth(states[l].table, j, g) && HasBoth(states[l + 1].table, j, g)
    ensures CleanedBefore(states[l + 1].table, j, g) <==> ops[l] != Raise(j)
  {
    InvHolds(states, ops, l);
    assert states[l + 1] == Step(states[l], ops[l]);
    hide HasBoth, CleanedBefore, Apply, PutsAtHead;
    OrderKeptIff(states[l].table, ops[l], j, g);
  }

  /** Over any run in which both stay in the table, the order holds throughout exactly if nobody starts to join j. */
  lemma {:induction false} OrderHoldsIff(states: seq<State>, ops: seq<Op>, m: nat, n: nat, j: int, g: int)
    requires IsRun(states, ops) && m <= n <= |ops| && CleanedBefore(states[m].table, j, g)
    requires forall k :: m <= k <= n ==> HasBoth(states[k].table, j, g)
    ensures OrderHolds(states, m, n, j, g) <==> NoJoinOf(ops, m, n, j)
  {
    if m < n {
      OrderHoldsIff(states, ops, m, n - 1, j, g);
      assert HasBoth(states[n - 1].table, j, g) && HasBoth(states[n].table, j, g);
      OneMoreOp(states, ops, m, n, j, g);
      assert OrderHolds(states, m, n - 1, j, g) ==> CleanedBefore(states[n - 1].table, j, g);
      hide IsRun, HasBoth, CleanedBefore, OrderHolds, NoJoinOf;
      if CleanedBefore(states[n - 1].table, j, g) { OrderStep(states, ops, n - 1, j, g); }
    }
  }

  /**
    Such a join does happen.  A joins B and then C joins A: A is moved back in front of B, so B is
    cleaned up while A is still joining it, which the comments in the code promise to avoid.
   */
  lemma ChainedJoins(a: Thread, b: Thread, c: Thread)
    requires Unique([a, b, c])
    ensures var s := Apply(Apply(Apply([], Add(a)), Add(b)), Add(c));
            var r := Apply(Apply(s, Raise(b.tid)), Raise(a.tid));
            r == [a, b, c] && CleanedBefore(r, b.tid, a.tid)
  {
    assert a == [a, b, c][0] && b == [a, b, c][1] && c == [a, b, c][2];
    assert Apply([], Add(a)) == [a];
    assert Apply([a], Add(b)) == [b, a];
    assert Apply([b, a], Add(c)) == [c, b, a];
    IndexIs([c, b, a], 1);
    assert Apply([c, b, a], Raise(b.tid)) == [b, c, a];
    IndexIs([b, c, a], 2);
    assert Apply([b, c, a], Raise(a.tid)) == [a, b, c];
    IndexIs([a, b, c], 0);
    IndexIs([a, b, c], 1);
  }

  // ---------------------------------------------------------------- the code

  const EAGAIN := 11
  const ENOMEM := 12

  /** What creating, joining or detaching a thread reports. */
  datatype Err = Success | NoSuchThread | NotJoinable | Other(code: int) {
    /** None of these leaves a thread that should stay in the table. */
    predicate Gone() {
      !Other?
    }
  }

  /** The wait is for the entry's thread: not at all after a signal, else for what is left of the entry's time. */
  predicate WaitsFor(arg: Thread, entry: Thread, signum: int, elapsed: int) {
    arg == Thread(entry.tid, if signum == 0 then entry.waittime - elapsed else 0)
  }

  lemma TakeLess<T>(s: seq<T>, m: nat)
    requires 0 < m <= |s|
    ensures s[..m][..m - 1] == s[..m - 1] && s[..m][m - 1] == s[m - 1]
  {
  }

  class Threads {
    const table: List<Thread>
    /** Entries that have been allocated and not freed. */
    ghost var live: set<Entry>

    /** A well-formed list of distinct thread ids. */
    ghost predicate ValidTable()
      reads this, table, table.elems
    {
      table.Valid() && Unique(table.Contents())
    }

    /** Moreover, the allocated entries are exactly those of the list. */
    ghost predicate Valid()
      reads this, table, table.elems
    {
      ValidTable() && live == (set e | e in table.elems)
    }

    ghost function Contents(): seq<Thread>
      reads this, table, table.elems
    {
      table.Contents()
    }

    constructor ()
      ensures Valid() && Contents() == [] && fresh(table)
    {
      table := new List<Thread>();
      live := {};
    }

    method Malloc(granted: bool) returns (e: Elem?<Thread>)
      modifies `live
      ensures if granted then e != null && fresh(e) && live == old(live) + {e} else e == null && live == old(live)
    {
      e := null;
      if granted {
        e := new Elem<Thread>();
        live := live + {e};
      }
    }

    /** Only what has been allocated and not yet freed may be freed. */
    method Free(e: Entry)
      requires e in live
      modifies `live
      ensures live == old(live) - {e}
    {
      live := live - {e};
    }

    /** The search loop that every operation starts with. */
    method Find(tid: int) returns (ttp: Elem?<Thread>, ghost k: nat)
      requires ValidTable()
      ensures k == Index(Contents(), tid) && ttp == Link(table.elems, k)
      ensures (ttp != null <==> Has(Contents(), tid)) && (ttp != null ==> k < |table.elems|)
    {
      ttp, k := table.head, 0;
      while ttp != null
        invariant k <= |table.elems| && ttp == Link(table.elems, k)
        invariant forall i :: 0 <= i < k ==> table.elems[i].data.tid != tid
        decreases |table.elems| - k
      {
        if ttp.data.tid == tid { break; }
        assert ttp.next == Link(table.elems, k + 1);
        ttp, k := ttp.next, k + 1;
      }
      assert forall i :: 0 <= i < k ==> Contents()[i].tid != tid;
    }

    /** The update branch of ttadd(): everything but the links is copied. */
    method CopyEntry(newttp: Entry, ttp: Entry, ghost k: nat)
      requires table.Valid() && k < |table.elems| && table.elems[k] == ttp && newttp !in table.elems
      modifies newttp, ttp
      ensures table.Valid() && Contents() == old(Contents())[k := old(newttp.data)]
    {
      ghost var ts := Contents();
      newttp.next, newttp.last := ttp.next, ttp.last;
      ttp.next, ttp.last, ttp.data := newttp.next, newttp.last, newttp.data;
      assert Contents() == ts[k := newttp.data];
    }

    /** ttadd() */
    method TtAdd(newttp: Entry) returns (added: bool)
      requires ValidTable() && newttp !in table.elems
      modifies table, table.elems, newttp
      ensures ValidTable() && Contents() == Apply(old(Contents()), Add(old(newttp.data)))
      ensures added <==> !Has(old(Contents()), old(newttp.data.tid))
      ensures table.elems == if added then [newttp] + old(table.elems) else old(table.elems)
    {
      ghost var ts := Contents();
      UniqueKept(ts, Add(newttp.data));
      var ttp;
      ghost var k;
      ttp, k := Find(newttp.data.tid);
      if ttp != null {
        CopyEntry(newttp, ttp, k);
        added := false;
      } else {
        table.Insert(newttp);
        assert Contents() == [newttp.data] + ts;
        added := true;
      }
    }

    /**
      tet_thr_create() or tet_pthread_create(), given whether there is memory for an entry; `started` is the id
      of the new thread, if the system creates one.  The entry is freed unless it went into the table.
     */
    method Create(detached: bool, waittime: int, granted: bool, started: Option<int>) returns (rtval: Err)
      requires Valid()
      modifies this, table, table.elems
      ensures Valid() && fresh(live - old(live))
      ensures rtval == if !detached && !granted then Other(ENOMEM)
                       else if started == None then Other(EAGAIN) else Success
      ensures Contents() == if rtval == Success && !detached
                            then Apply(old(Contents()), Add(Thread(started.value, waittime)))
                            else old(Contents())
    {
      var ttp: Elem?<Thread> := null;
      if !detached {
        ttp := Malloc(granted);
        if ttp == null { return Other(ENOMEM); }
      }
      rtval := if started.Some? then Success else Other(EAGAIN);
      if !detached {
        if rtval == Success { ttp.data := Thread(started.value, waittime); }
        Register(ttp, rtval == Success);
      }
    }

    /** An entry that does not go into the table is freed. */
    method Register(ttp: Entry, running: bool)
      requires ValidTable() && ttp !in table.elems && live == (set e | e in table.elems) + {ttp}
      modifies this, table, table.elems, ttp
      ensures Valid() && live <= old(live)
      ensures Contents() == if running then Apply(old(Contents()), Add(old(ttp.data))) else old(Contents())
    {
      var added := false;
      if running { added := TtAdd(ttp); }
      if !added { Free(ttp); }
    }

    method MoveToHead(ttp: Entry, ghost k: nat)
      requires table.Valid() && k < |table.elems| && table.elems[k] == ttp
      modifies table, table.elems
      ensures table.Valid() && Contents() == Fronted(old(Contents()), k)
      ensures (set e | e in table.elems) == old(set e | e in table.elems)
    {
      ghost var ts, es := Contents(), table.elems;
      table.Front(ttp, k);
      FrontedElements(es, k);
      assert Contents() == Fronted(ts, k);
    }

    /** tet_thr_join() or tet_pthread_join(), up to the wait for the thread. */
    method JoinBegin(thread: int) returns (found: bool)
      requires Valid()
      modifies table, table.elems
      ensures Valid() && Contents() == Apply(old(Contents()), Raise(thread))
      ensures found <==> Has(old(Contents()), thread)
      ensures live == old(live)
    {
      UniqueKept(Contents(), Raise(thread));
      var ttp;
      ghost var k;
      ttp, k := Find(thread);
      if ttp != null { MoveToHead(ttp, k); }
      found := ttp != null;
    }

    /** tet_listremove() and free() of the k-th entry. */
    method Discard(ttp: Entry, ghost k: nat)
      requires Valid() && k < |table.elems| && table.elems[k] == ttp
      modifies this, table, table.elems
      ensures Valid() && table.elems == Without(old(table.elems), k)
      ensures Contents() == Without(old(Contents()), k)
      ensures live == old(live) - {ttp}
    {
      ghost var ts, es := Contents(), table.elems;
      table.Remove(ttp, k);
      assert Contents() == Without(ts, k);
      assert forall e :: e in es && e != ttp ==> e in table.elems by {
        forall i | 0 <= i < |es| && es[i] != ttp ensures es[i] in table.elems {
          assert es[i] == table.elems[if i < k then i else i - 1];
        }
      }
      Free(ttp);
    }

    /** Take the thread's entry out of the table, if it is there, and free it. */
    method Drop(thread: int)
      requires Valid()
      modifies this, table, table.elems
      ensures Valid() && Contents() == Apply(old(Contents()), Remove(thread))
      ensures live <= old(live)
    {
      var ttp;
      ghost var k;
      ttp, k := Find(thread);
      if ttp != null { Discard(ttp, k); }
    }

    /** The rest of the join: `found` is what JoinBegin answered, `err` what the wait reported. */
    method JoinEnd(thread: int, found: bool, err: Err)
      requires Valid()
      modifies this, table, table.elems
      ensures Valid() && live <= old(live)
      ensures Contents() == if found && (err == Success || err == NoSuchThread || err == NotJoinable)
                            then Apply(old(Contents()), Remove(thread)) else old(Contents())
    {
      if err.Gone() {
        if found { Drop(thread); }
      }
    }

    /** tet_pthread_detach() */
    method Detach(thread: int, err: Err)
      requires Valid()
      modifies this, table, table.elems
      ensures Valid() && live <= old(live)
      ensures Contents() == if err == Success || err == NoSuchThread || err == NotJoinable
                            then Apply(old(Contents()), Remove(thread)) else old(Contents())
    {
      if err.Gone() { Drop(thread); }
    }

    /** tet_thrtab_reset() */
    method Reset()
      requires Valid()
      modifies this, table, table.elems
      ensures Valid() && Contents() == [] && live == {}
    {
      var ttp := table.head;
      ghost var k, es := 0, table.elems;
      while ttp != null
        invariant Valid() && ttp == table.head
        invariant k <= |es| && table.elems == es[k..]
        decreases |es| - k
      {
        var ttpnext := ttp.next;
        assert ttpnext == Link(table.elems, 1);
        Discard(ttp, 0);
        ttp, k := ttpnext, k + 1;
      }
      table.head := null;
    }

    /** Wait for the last thread in the table, and discard its entry. */
    method CleanLast(ttp: Entry, signum: int, elapsed: int) returns (arg: Thread, ttpnext: Elem?<Thread>)
      requires Valid() && ttp == Link(table.elems, |table.elems| - 1)
      modifies this, table, table.elems
      ensures Valid()
      ensures WaitsFor(arg, old(Contents())[|old(Contents())| - 1], signum, elapsed)
      ensures table.elems == old(table.elems)[..|old(table.elems)| - 1]
      ensures Contents() == old(Contents())[..|old(Contents())| - 1]
      ensures ttpnext == Link(table.elems, |table.elems| - 1)
    {
      ghost var m := |table.elems|;
      ttpnext := ttp.last;
      assert ttpnext == Link(table.elems, m - 2) && ttp.data == Contents()[m - 1];
      arg := Thread(ttp.data.tid, if signum == 0 then ttp.data.waittime - elapsed else 0);
      Discard(ttp, m - 1);
    }

    /**
      tet_cln_threads(): the threads are waited for in reverse table order, each exactly once; elapsed(i) is
      the time since the beginning when the i-th is reached.
     */
    method ClnThreads(signum: int, elapsed: nat -> int) returns (visited: seq<Thread>)
      requires Valid()
      modifies this, table, table.elems
      ensures Valid() && Contents() == [] && live == {}
      ensures |visited| == |old(Contents())|
      ensures forall i :: 0 <= i < |visited| ==>
                WaitsFor(visited[i], old(Contents())[|visited| - 1 - i], signum, elapsed(i))
    {
      hide WaitsFor;
      visited := [];
      ghost var m, ts, es := |table.elems|, Contents(), table.elems;
      var ttp := LastEntry();
      while ttp != null
        invariant Valid() && 0 <= m <= |es| == |ts| && |visited| == |ts| - m
        invariant ttp == Link(table.elems, m - 1)
        invariant table.elems == es[..m] && Contents() == ts[..m]
        invariant forall i :: 0 <= i < |visited| ==> WaitsFor(visited[i], ts[|ts| - 1 - i], signum, elapsed(i))
        decreases m
      {
        var arg;
        TakeLess(es, m);
        TakeLess(ts, m);
        arg, ttp := CleanLast(ttp, signum, elapsed(|visited|));
        visited, m := visited + [arg], m - 1;
      }
      table.head := null;
    }

    /** The first loop of tet_cln_threads(): walk to the end of the table. */
    method LastEntry() returns (ttp: Elem?<Thread>)
      requires ValidTable()
      ensures ttp == Link(table.elems, |table.elems| - 1)
    {
      ttp := table.head;
      ghost var k := 0;
      while ttp != null
        invariant k <= |table.elems| && ttp == Link(table.elems, k) && (k == |table.elems| ==> k == 0)
        decreases |table.elems| - k
      {
        assert ttp.next == Link(table.elems, k + 1);
        if ttp.next == null { break; }
        ttp, k := ttp.next, k + 1;
      }
    }
  }
}

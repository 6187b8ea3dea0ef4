/** tet_delete() and tet_reason(): an array of slots that are filled, reused and freed in place. */
module Cancel {
  import opened Options
  import opened Bufchk

  const FREE := -1

  /** A free slot has test number -1. */
  datatype Slot = Slot(testnum: int, reason: Option<string>)

  // ---------------------------------------------------------------- the abstract view

  type Reasons = map<int, string>

  /** What a call of tet_delete() means: null as the reason cancels an earlier deletion. */
  function Deleted(m: Reasons, testnum: int, reason: Option<string>): Reasons {
    if testnum <= 0 then m else
      match reason
      case Some(r) => m[testnum := r]
      case None => m - {testnum}
  }

  function Max(a: nat, b: nat): nat {
    if a < b then b else a
  }

  datatype Call = Call(testnum: int, reason: Option<string>)

  /** The reasons after the first n calls. */
  function After(calls: seq<Call>, n: nat): Reasons
    requires n <= |calls|
  {
    if n == 0 then map[] else Deleted(After(calls, n - 1), calls[n - 1].testnum, calls[n - 1].reason)
  }

  /** How many tests are deleted after each number of calls. */
  function Counts(calls: seq<Call>): (counts: seq<nat>)
    ensures |counts| == |calls| + 1
  {
    seq(|calls| + 1, n requires 0 <= n <= |calls| => |After(calls, n)|)
  }

  /** A further call does not change what the earlier ones meant. */
  lemma {:induction false} AfterPrefix(calls: seq<Call>, c: Call, n: nat)
    requires n <= |calls|
    ensures After(calls + [c], n) == After(calls, n)
  {
    if n > 0 { AfterPrefix(calls, c, n - 1); }
  }

  /** The high-water mark of the first n + 1 counts, as each call may raise it. */
  function Peak(counts: seq<nat>, n: nat): nat
    requires n < |counts|
  {
    if n == 0 then counts[0] else Max(Peak(counts, n - 1), counts[n])
  }

  lemma {:induction false} PeakOfCounts(counts: seq<nat>, n: nat) returns (k: nat)
    requires n < |counts|
    ensures k <= n && counts[k] == Peak(counts, n)
    ensures forall j :: 0 <= j <= n ==> counts[j] <= Peak(counts, n)
  {
    if n == 0 {
      k := 0;
    } else {
      k := PeakOfCounts(counts, n - 1);
      if Peak(counts, n - 1) < counts[n] { k := n; }
    }
  }

  /** It is the largest number of tests deleted at any one time: never passed, and once reached. */
  lemma PeakIsLargest(calls: seq<Call>) returns (k: nat)
    ensures k <= |calls| && |After(calls, k)| == Peak(Counts(calls), |calls|)
    ensures forall j :: 0 <= j <= |calls| ==> |After(calls, j)| <= Peak(Counts(calls), |calls|)
  {
    var counts := Counts(calls);
    k := PeakOfCounts(counts, |calls|);
    forall j | 0 <= j <= |calls| ensures |After(calls, j)| <= Peak(counts, |calls|) {
      assert counts[j] == |After(calls, j)|;
    }
  }

  lemma {:induction false} PeakPrefix(counts: seq<nat>, counts': seq<nat>, n: nat)
    requires n < |counts| <= |counts'| && forall k :: 0 <= k < |counts| ==> counts'[k] == counts[k]
    ensures Peak(counts', n) == Peak(counts, n)
  {
    if n > 0 { PeakPrefix(counts, counts', n - 1); }
  }

  /** What a call does to the reasons and to the high-water mark. */
  lemma OneMoreCall(calls: seq<Call>, c: Call)
    ensures var more := calls + [c];
            && After(more, |more|) == Deleted(After(calls, |calls|), c.testnum, c.reason)
            && Peak(Counts(more), |more|) == Max(Peak(Counts(calls), |calls|), |After(more, |more|)|)
  {
    var more := calls + [c];
    forall k | 0 <= k <= |calls| ensures After(more, k) == After(calls, k) { AfterPrefix(calls, c, k); }
    forall k | 0 <= k < |Counts(calls)| ensures Counts(more)[k] == Counts(calls)[k] { }
    PeakPrefix(Counts(calls), Counts(more), |calls|);
  }

  // ---------------------------------------------------------------- slots

  predicate SlotOk(s: Slot) {
    if s.testnum == FREE then s.reason == None else s.testnum > 0 && s.reason.Some?
  }

  /** The first n slots are free or hold reasons, for different tests. */
  predicate SlotsOk(slots: seq<Slot>, n: nat)
    requires n <= |slots|
  {
    && (forall i :: 0 <= i < n ==> SlotOk(slots[i]))
    && (forall i, j :: 0 <= i < j < n && slots[i].testnum != FREE ==> slots[i].testnum != slots[j].testnum)
  }

  function View(slots: seq<Slot>, n: nat): Reasons
    requires n <= |slots| && SlotsOk(slots, n)
  {
    if n == 0 then map[] else
      var m := View(slots, n - 1);
      if slots[n - 1].testnum == FREE then m else m[slots[n - 1].testnum := slots[n - 1].reason.value]
  }

  /** A test is in the view exactly if a slot holds it. */
  lemma {:induction false} ViewHolds(slots: seq<Slot>, n: nat, t: int)
    requires n <= |slots| && SlotsOk(slots, n)
    ensures t in View(slots, n) <==> t != FREE && exists i :: 0 <= i < n && slots[i].testnum == t
    ensures forall i :: 0 <= i < n && slots[i].testnum == t && t != FREE ==>
              t in View(slots, n) && View(slots, n)[t] == slots[i].reason.value
  {
    if n > 0 { ViewHolds(slots, n - 1, t); }
  }

  predicate Absent(slots: seq<Slot>, n: nat, t: int)
    requires n <= |slots|
  {
    forall i :: 0 <= i < n ==> slots[i].testnum != t
  }

  /** A test without a slot is not deleted. */
  lemma NotDeleted(slots: seq<Slot>, n: nat, t: int)
    requires n <= |slots| && SlotsOk(slots, n) && t > 0 && Absent(slots, n, t)
    ensures t !in View(slots, n) && Deleted(View(slots, n), t, None) == View(slots, n)
  {
    ViewHolds(slots, n, t);
  }

  /** A test with a slot is deleted. */
  lemma Found(slots: seq<Slot>, n: nat, drp: nat)
    requires n <= |slots| && SlotsOk(slots, n) && drp < n && slots[drp].testnum > 0
    ensures slots[drp].testnum in View(slots, n)
  {
    ViewHolds(slots, n, slots[drp].testnum);
  }

  /** Each live slot adds one test to the view. */
  lemma {:induction false} ViewSize(slots: seq<Slot>, n: nat)
    requires n <= |slots| && SlotsOk(slots, n)
    ensures |View(slots, n)| <= n
    ensures (forall i :: 0 <= i < n ==> slots[i].testnum != FREE) <==> |View(slots, n)| == n
  {
    if n > 0 {
      ViewSize(slots, n - 1);
      ViewHolds(slots, n - 1, slots[n - 1].testnum);
    }
  }

  /** Filling slot k, which was free or new, adds one test. */
  lemma SlotFilled(slots: seq<Slot>, n: nat, after: seq<Slot>, n': nat, k: nat, t: int, r: string)
    requires n <= |slots| && SlotsOk(slots, n) && n' <= |after| && SlotsOk(after, n')
    requires k < n' && after[k] == Slot(t, Some(r)) && t > 0
    requires (k < n == n' && (slots[k].testnum == FREE || slots[k].testnum == t)) || k == n == n' - 1
    requires forall i :: 0 <= i < n && i != k ==> after[i] == slots[i]
    ensures View(after, n') == View(slots, n)[t := r]
  {
    var m, m' := View(slots, n), View(after, n');
    forall u | u in m' || u in m || u == t
      ensures (u in m' <==> u in m || u == t) && (u in m' ==> m'[u] == if u == t then r else m[u])
    {
      ViewHolds(slots, n, u);
      ViewHolds(after, n', u);
      if u in m {
        var i :| 0 <= i < n && slots[i].testnum == u;
        assert i != k ==> after[i].testnum == u;
      }
    }
  }

  /** Freeing slot k takes its test out. */
  lemma SlotFreed(slots: seq<Slot>, after: seq<Slot>, n: nat, k: nat)
    requires n <= |slots| == |after| && SlotsOk(slots, n) && SlotsOk(after, n)
    requires k < n && slots[k].testnum > 0 && after[k].testnum == FREE
    requires forall i :: 0 <= i < n && i != k ==> after[i] == slots[i]
    ensures View(after, n) == View(slots, n) - {slots[k].testnum}
  {
    var m, m', t := View(slots, n), View(after, n), slots[k].testnum;
    forall u | u in m' || u in m
      ensures (u in m' <==> u in m && u != t) && (u in m' ==> m'[u] == m[u])
    {
      ViewHolds(slots, n, u);
      ViewHolds(after, n, u);
      if u in m {
        var i :| 0 <= i < n && slots[i].testnum == u;
        assert i != k ==> after[i].testnum == u;
      }
    }
  }

  /**
    A slot for a new reason is a free one among the first n, or a new one if none of those is free.
    The number of slots in use grows only when the number of deleted tests reaches a new high.
   */
  lemma NewReason(slots: seq<Slot>, n: nat, mid: seq<Slot>, n': nat, k: nat, t: int, r: string)
    requires n <= |slots| && SlotsOk(slots, n) && t > 0 && t !in View(slots, n)
    requires n <= n' <= |mid| && k < n' && forall i :: 0 <= i < n && i != k ==> mid[i] == slots[i]
    requires (n' == n && slots[k].testnum == FREE)
             || (n' == n + 1 && k == n && forall i :: 0 <= i < n ==> slots[i].testnum != FREE)
    ensures var after := mid[k := Slot(t, Some(r))];
            SlotsOk(after, n') && View(after, n') == View(slots, n)[t := r] && n' == Max(n, |View(after, n')|)
  {
    var after := mid[k := Slot(t, Some(r))];
    ViewHolds(slots, n, t);
    SlotFilled(slots, n, after, n', k, t, r);
    ViewSize(after, n');
  }

  /** The slot of a deleted test gets another reason, or is freed. */
  lemma ReasonChanged(slots: seq<Slot>, n: nat, k: nat, reason: Option<string>)
    requires n <= |slots| && SlotsOk(slots, n) && k < n && slots[k].testnum > 0
    ensures var t := slots[k].testnum;
            var after := slots[k := if reason.Some? then Slot(t, reason) else Slot(FREE, None)];
            && SlotsOk(after, n) && View(after, n) == Deleted(View(slots, n), t, reason)
            && |View(after, n)| <= n
  {
    var t := slots[k].testnum;
    var after := slots[k := if reason.Some? then Slot(t, reason) else Slot(FREE, None)];
    if reason.Some? { SlotFilled(slots, n, after, n, k, t, reason.value); } else { SlotFreed(slots, after, n, k); }
    ViewSize(after, n);
  }

  // ---------------------------------------------------------------- the code

  class Deletions {
    const delreason: Buffer<Slot>
    var ndelreason: nat
    /** The calls of tet_delete() so far. */
    ghost var calls: seq<Call>

    ghost predicate SlotsValid()
      reads this, delreason, delreason.bp
    {
      delreason.Valid() && ndelreason <= delreason.len && SlotsOk(delreason.Contents(), ndelreason)
    }

    /** The slots hold what the calls so far say, and there are as many as were ever in use together. */
    ghost predicate Valid()
      reads this, delreason, delreason.bp
    {
      && SlotsValid()
      && View(delreason.Contents(), ndelreason) == After(calls, |calls|)
      && ndelreason == Peak(Counts(calls), |calls|)
    }

    /** The plain map from test numbers to reasons. */
    ghost function Contents(): Reasons
      requires SlotsValid()
      reads this, delreason, delreason.bp
    {
      View(delreason.Contents(), ndelreason)
    }

    constructor ()
      ensures Valid() && calls == [] && Contents() == map[] && fresh(delreason)
    {
      delreason := new Buffer<Slot>();
      ndelreason, calls := 0, [];
    }

    /** drfind() */
    method DrFind(testnum: int) returns (drp: int)
      requires SlotsValid()
      ensures -1 <= drp < ndelreason
      ensures drp >= 0 ==> delreason.bp != null && delreason.bp[drp].testnum == testnum
      ensures drp == -1 ==> Absent(delreason.Contents(), ndelreason, testnum)
    {
      if delreason.bp != null {
        for n := 0 to ndelreason
          invariant forall i :: 0 <= i < n ==> delreason.bp[i].testnum != testnum
        {
          if delreason.bp[n].testnum == testnum { return n; }
        }
      }
      drp := -1;
    }

    /** All slots are in use, there is no room for another one, and none is granted. */
    ghost predicate NoRoom(growth: Growth)
      requires SlotsValid()
      reads this, delreason, delreason.bp
    {
      |Contents()| == ndelreason == delreason.len && !growth.granted
    }

    /** dralloc(): a free slot if there is one, else a new one; -1 stands for tet_exit(). */
    method DrAlloc(growth: Growth) returns (drp: int)
      requires SlotsValid()
      modifies this, delreason, delreason.bp
      ensures drp >= -1 && (drp == -1 <==> old(NoRoom(growth)))
      ensures delreason.Valid() && (delreason.bp == old(delreason.bp) || delreason.bp == null || fresh(delreason.bp))
      ensures drp >= 0 ==> delreason.bp != null && drp < ndelreason <= delreason.len && calls == old(calls)
      ensures drp >= 0 ==> old(ndelreason) <= ndelreason
      ensures drp >= 0 ==> delreason.Contents()[..old(ndelreason)] == old(delreason.Contents()[..ndelreason])
      ensures drp >= 0 && ndelreason == old(ndelreason) ==> delreason.bp[drp].testnum == FREE
      ensures drp >= 0 && ndelreason != old(ndelreason) ==> drp == old(ndelreason) == ndelreason - 1
      ensures drp >= 0 && ndelreason != old(ndelreason) ==>
                forall i :: 0 <= i < drp ==> delreason.bp[i].testnum != FREE
    {
      ghost var slots, n := delreason.Contents(), ndelreason;
      ViewSize(slots, n);
      drp := DrFind(FREE);
      if drp != -1 { return; }
      var rc := delreason.Check(ndelreason + 1, growth.granted, growth.back);
      if rc < 0 { return -1; }
      assert forall i :: 0 <= i < n ==> delreason.bp[i] == slots[i];
      drp := ndelreason;
      ndelreason := ndelreason + 1;
      delreason.bp[drp] := Slot(0, None);
    }

    /** tet_delete() of a test that is not deleted yet; exited says that tet_exit() was called. */
    method DeleteNew(testnum: int, reason: string, growth: Growth) returns (exited: bool)
      requires SlotsValid() && testnum > 0 && testnum !in Contents()
      modifies this, delreason, delreason.bp
      ensures exited <==> old(NoRoom(growth))
      ensures !exited ==> SlotsValid() && calls == old(calls) && Contents() == old(Contents())[testnum := reason]
      ensures !exited ==> ndelreason == Max(old(ndelreason), |Contents()|)
      ensures !exited ==> delreason.bp == old(delreason.bp) || fresh(delreason.bp)
    {
      ghost var slots, n := delreason.Contents(), ndelreason;
      var drp := DrAlloc(growth);
      if drp < 0 { return true; }
      ghost var mid := delreason.Contents();
      assert forall i :: 0 <= i < n ==> mid[i] == mid[..n][i] == slots[..n][i] == slots[i];
      NewReason(slots, n, mid, ndelreason, drp, testnum, reason);
      delreason.bp[drp] := Slot(testnum, Some(reason));
      assert delreason.Contents() == mid[drp := Slot(testnum, Some(reason))];
      exited := false;
    }

    /** tet_delete() of a test that is deleted already: its slot gets the new reason or is freed. */
    method DeleteAgain(drp: nat, testnum: int, reason: Option<string>)
      requires SlotsValid() && testnum > 0
      requires drp < ndelreason && delreason.bp != null && delreason.bp[drp].testnum == testnum
      modifies delreason.bp
      ensures SlotsValid() && Contents() == Deleted(old(Contents()), testnum, reason)
      ensures ndelreason == Max(ndelreason, |Contents()|)
    {
      ghost var slots := delreason.Contents();
      ReasonChanged(slots, ndelreason, drp, reason);
      delreason.bp[drp] := if reason.Some? then Slot(testnum, reason) else Slot(FREE, None);
      assert delreason.Contents() == slots[drp := delreason.bp[drp]];
    }

    /** What tet_delete() does to the slots. */
    method DeleteSlot(testnum: int, reason: Option<string>, growth: Growth) returns (exited: bool)
      requires SlotsValid()
      modifies this, delreason, delreason.bp
      ensures exited <==> testnum > 0 && reason.Some? && testnum !in old(Contents()) && old(NoRoom(growth))
      ensures !exited ==> SlotsValid() && calls == old(calls)
      ensures !exited ==> Contents() == Deleted(old(Contents()), testnum, reason)
      ensures !exited ==> ndelreason == Max(old(ndelreason), |Contents()|)
      ensures !exited ==> delreason.bp == old(delreason.bp) || fresh(delreason.bp)
    {
      exited := false;
      ghost var slots, n := delreason.Contents(), ndelreason;
      ViewSize(slots, n);
      hide View, SlotsOk, Absent, NoRoom;
      if testnum > 0 {
        var drp := DrFind(testnum);
        if drp != -1 {
          Found(slots, n, drp);
          DeleteAgain(drp, testnum, reason);
        } else {
          NotDeleted(slots, n, testnum);
          if reason.Some? { exited := DeleteNew(testnum, reason.value, growth); }
        }
      }
    }

    /**
      tet_delete(): Valid() says what this means over all the calls so far.  The process exits exactly if a
      test that is not deleted is to be, and there is no room for that.
     */
    method Delete(testnum: int, reason: Option<string>, growth: Growth) returns (exited: bool)
      requires Valid()
      modifies this, delreason, delreason.bp
      ensures exited <==> testnum > 0 && reason.Some? && testnum !in old(Contents()) && old(NoRoom(growth))
      ensures !exited ==> Valid() && calls == old(calls) + [Call(testnum, reason)]
      ensures !exited ==> Contents() == Deleted(old(Contents()), testnum, reason)
      ensures !exited ==> delreason.bp == old(delreason.bp) || fresh(delreason.bp)
    {
      hide After, Peak, Counts, View, SlotsOk, NoRoom;
      exited := DeleteSlot(testnum, reason, growth);
      if exited { return; }
      OneMoreCall(calls, Call(testnum, reason));
      calls := calls + [Call(testnum, reason)];
    }

    /** tet_reason() */
    method Reason(testnum: int) returns (reason: Option<string>)
      requires SlotsValid()
      ensures reason == if testnum in Contents() then Some(Contents()[testnum]) else None
    {
      ViewHolds(delreason.Contents(), ndelreason, testnum);
      if testnum < 0 { return None; }
      var drp := DrFind(testnum);
      if drp == -1 { return None; }
      reason := delreason.bp[drp].reason;
      assert delreason.bp[drp] == delreason.Contents()[drp];
    }
  }
}

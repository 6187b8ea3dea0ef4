/** tet_putenv(): an assignment in the environment, in place or in an array of its own that grows. */
module Putenv {
  import opened Options
  import opened Bufchk

  // ---------------------------------------------------------------- the environment as a list

  /** Where the first '=' is, or the length. */
  function NameLen(s: string, i: nat): (n: nat)
    requires i <= |s|
    ensures i <= n <= |s| && (n < |s| ==> s[n] == '=') && forall k :: i <= k < n ==> s[k] != '='
    decreases |s| - i
  {
    if i == |s| || s[i] == '=' then i else NameLen(s, i + 1)
  }

  predicate IsAssignment(s: string) {
    NameLen(s, 0) < |s|
  }

  function NameOf(s: string): string {
    s[..NameLen(s, 0)]
  }

  /** Is this the assignment to the name that getenv() looks for? */
  predicate Assigns(e: string, name: string) {
    IsAssignment(e) && NameOf(e) == name
  }

  /** The first of es[i..] that assigns to the name. */
  function Find(es: seq<string>, name: string, i: nat): (k: nat)
    requires i <= |es|
    ensures i <= k <= |es|
    decreases |es| - i
  {
    if i == |es| || Assigns(es[i], name) then i else Find(es, name, i + 1)
  }

  function Lookup(es: seq<string>, name: string): Option<string> {
    var k := Find(es, name, 0);
    if k < |es| then Some(es[k]) else None
  }

  /** The list after s has been put. */
  function Put(es: seq<string>, s: string): seq<string> {
    var k := if IsAssignment(s) then Find(es, NameOf(s), 0) else |es|;
    if k < |es| then es[k := s] else es + [s]
  }

  lemma {:induction false} FindIs(es: seq<string>, name: string, i: nat, k: nat)
    requires i <= k <= |es| && (k < |es| ==> Assigns(es[k], name))
    requires forall j :: i <= j < k ==> !Assigns(es[j], name)
    ensures Find(es, name, i) == k
    decreases k - i
  {
    if i < k { FindIs(es, name, i + 1, k); }
  }

  lemma {:induction false} FindMeans(es: seq<string>, name: string, i: nat)
    requires i <= |es|
    ensures var k := Find(es, name, i);
            (k < |es| ==> Assigns(es[k], name)) && forall j :: i <= j < k ==> !Assigns(es[j], name)
    decreases |es| - i
  {
    if i < |es| { FindMeans(es, name, i + 1); }
  }

  /**
    Putting an assignment makes its name look up the new string, and no other name looks up anything
    else than before.  A string that is not an assignment changes no name.
   */
  lemma LookupAfterPut(es: seq<string>, s: string, name: string)
    ensures Lookup(Put(es, s), name) == if Assigns(s, name) then Some(s) else Lookup(es, name)
  {
    var after, k, f := Put(es, s), Find(es, NameOf(s), 0), Find(es, name, 0);
    FindMeans(es, NameOf(s), 0);
    FindMeans(es, name, 0);
    if Assigns(s, name) {
      FindIs(after, name, 0, k);
    } else if f < |es| {
      FindIs(after, name, 0, f);
    } else {
      FindIs(after, name, 0, |after|);
    }
  }

  /** At most the first entry for the name is changed, and a new one goes to the end. */
  lemma PutChangesOne(es: seq<string>, s: string)
    ensures if IsAssignment(s) && exists k :: 0 <= k < |es| && Assigns(es[k], NameOf(s))
            then exists k :: 0 <= k < |es| && Assigns(es[k], NameOf(s)) && Put(es, s) == es[k := s]
                             && forall j :: 0 <= j < k ==> !Assigns(es[j], NameOf(s))
            else Put(es, s) == es + [s]
  {
    FindMeans(es, NameOf(s), 0);
  }

  /** The list after the first n of the strings have been put. */
  function Puts(es: seq<string>, ss: seq<string>, n: nat): seq<string>
    requires n <= |ss|
  {
    if n == 0 then es else Put(Puts(es, ss, n - 1), ss[n - 1])
  }

  /** The last of the first n strings that assigns to the name. */
  function LastPut(ss: seq<string>, name: string, n: nat): Option<string>
    requires n <= |ss|
  {
    if n == 0 then None else if Assigns(ss[n - 1], name) then Some(ss[n - 1]) else LastPut(ss, name, n - 1)
  }

  /** Over any sequence of calls, each name looks up what was last put, and otherwise what was there before. */
  lemma {:induction false} LookupAfterPuts(es: seq<string>, ss: seq<string>, n: nat, name: string)
    requires n <= |ss|
    ensures Lookup(Puts(es, ss, n), name)
            == if LastPut(ss, name, n).Some? then LastPut(ss, name, n) else Lookup(es, name)
  {
    if n > 0 {
      LookupAfterPuts(es, ss, n - 1, name);
      LookupAfterPut(Puts(es, ss, n - 1), ss[n - 1], name);
    }
  }

  // ---------------------------------------------------------------- the array

  type Cells = seq<Option<string>>

  /** How many entries come before the null pointer. */
  function Length(a: Cells, i: nat): (n: nat)
    requires i <= |a|
    ensures i <= n <= |a| && (n < |a| ==> a[n] == None) && forall k :: i <= k < n ==> a[k] != None
    decreases |a| - i
  {
    if i == |a| || a[i] == None then i else Length(a, i + 1)
  }

  /** There is a null pointer within the allocation. */
  predicate Terminated(a: Cells) {
    Length(a, 0) < |a|
  }

  function Entries(a: Cells): (es: seq<string>)
    ensures |es| == Length(a, 0)
  {
    seq(Length(a, 0), i requires 0 <= i < Length(a, 0) => a[i].value)
  }

  lemma {:induction false} LengthIs(a: Cells, i: nat, n: nat)
    requires i <= n < |a| && a[n] == None && forall k :: i <= k < n ==> a[k] != None
    ensures Length(a, i) == n
    decreases n - i
  {
    if i < n { LengthIs(a, i + 1, n); }
  }

  lemma EntriesAre(a: Cells, es: seq<string>)
    requires |es| < |a| && a[|es|] == None && forall i :: 0 <= i < |es| ==> a[i] == Some(es[i])
    ensures Terminated(a) && Entries(a) == es
  {
    LengthIs(a, 0, |es|);
  }

  // ---------------------------------------------------------------- the code

  /** The inner loop: do the two strings assign to the same name? */
  method SameName(e: string, s: string) returns (same: bool)
    ensures same <==> IsAssignment(s) && Assigns(e, NameOf(s))
  {
    var p := 0;
    while p < |e| && p < |s|
      invariant p <= |e| && p <= |s| && e[..p] == s[..p] && '=' !in e[..p]
    {
      if e[p] != s[p] || e[p] == '=' { break; }
      p := p + 1;
    }
    same := p < |e| && e[p] == '=' && p < |s| && s[p] == '=';
    SameNameIff(e, s, p);
  }

  lemma {:induction false} NameLenIs(s: string, i: nat, p: nat)
    requires i <= p < |s| && s[p] == '=' && forall k :: i <= k < p ==> s[k] != '='
    ensures NameLen(s, i) == p
    decreases p - i
  {
    if i < p { NameLenIs(s, i + 1, p); }
  }

  /** Where the comparison stops decides. */
  lemma SameNameIff(e: string, s: string, p: nat)
    requires p <= |e| && p <= |s| && e[..p] == s[..p] && '=' !in e[..p]
    requires p == |e| || p == |s| || e[p] != s[p] || e[p] == '='
    ensures (p < |e| && e[p] == '=' && p < |s| && s[p] == '=') <==> IsAssignment(s) && Assigns(e, NameOf(s))
  {
    assert forall k :: 0 <= k < p ==> e[k] == e[..p][k] == s[..p][k] == s[k] && e[k] != '=';
    if p < |e| && e[p] == '=' && p < |s| && s[p] == '=' {
      NameLenIs(e, 0, p);
      NameLenIs(s, 0, p);
    } else {
      DifferentNames(e, s, p, NameLen(e, 0), NameLen(s, 0));
    }
  }

  lemma DifferentNames(e: string, s: string, p: nat, m: nat, n: nat)
    requires p <= |e| && p <= |s| && m <= |e| && n <= |s|
    requires forall k :: 0 <= k < p ==> e[k] == s[k] && e[k] != '='
    requires p == |e| || p == |s| || e[p] != s[p] || e[p] == '='
    requires !(p < |e| && e[p] == '=' && p < |s| && s[p] == '=')
    requires (m < |e| ==> e[m] == '=') && forall k :: 0 <= k < m ==> e[k] != '='
    requires (n < |s| ==> s[n] == '=') && forall k :: 0 <= k < n ==> s[k] != '='
    ensures !(m < |e| && n < |s| && e[..m] == s[..n])
  {
    assert m < |e| ==> p <= m;
    assert m < |e| && n < |s| && m == n && p < m ==> e[p] != s[p];
    assert m < |e| && n < |s| && m == n && p < m ==> e[..m][p] != s[..n][p];
  }

  class Environment {
    var environ: array<Option<string>>
    const env: Buffer<Option<string>>

    ghost predicate Valid()
      reads this, environ, env, env.bp
    {
      env.Valid() && environ !in env.freed && Terminated(environ[..])
    }

    ghost function Contents(): seq<string>
      reads this, environ
    {
      Entries(environ[..])
    }

    /** No entry assigns to the name of s, and our own array has no room for one more. */
    ghost predicate MustGrow(s: string)
      requires env.Valid()
      reads this, environ, env
    {
      Put(Contents(), s) == Contents() + [s] && env.len < |Contents()| + 2
    }

    /** The growth is refused, and the array that environ points at is moved by the attempt to keep it. */
    ghost predicate WillDangle(s: string, granted: bool, back: Answer)
      requires env.Valid()
      reads this, environ, env
    {
      MustGrow(s) && !granted && environ == env.bp && back == Moves
    }

    constructor (inherited: array<Option<string>>)
      requires Terminated(inherited[..])
      ensures Valid() && environ == inherited && Contents() == Entries(inherited[..])
      ensures fresh(env) && env.bp == null
    {
      environ := inherited;
      env := new Buffer<Option<string>>();
    }

    /** The caller may make environ point at an array of its own. */
    method Repoint(a: array<Option<string>>)
      requires Valid() && Terminated(a[..]) && a !in env.freed
      modifies `environ
      ensures Valid() && environ == a && Contents() == Entries(a[..])
    {
      environ := a;
    }

    /** The first loop: the entry that assigns to the same name, or the end of the list. */
    method Search(s: string) returns (ep1: nat)
      requires Valid()
      ensures ep1 == if IsAssignment(s) then Find(Contents(), NameOf(s), 0) else |Contents()|
    {
      ghost var es := Contents();
      ep1 := 0;
      while environ[ep1] != None
        invariant ep1 <= |es|
        invariant IsAssignment(s) ==> forall j :: 0 <= j < ep1 ==> !Assigns(es[j], NameOf(s))
        decreases |es| - ep1
      {
        assert ep1 < |es| && environ[ep1] == Some(es[ep1]);
        var same := SameName(environ[ep1].value, s);
        if same { break; }
        ep1 := ep1 + 1;
      }
      if IsAssignment(s) { FindIs(es, NameOf(s), 0, ep1); }
    }

    /** The loop that copies the list into the array of our own. */
    method CopyList(to: array<Option<string>>) returns (ep2: nat)
      requires Valid() && to != environ && |Contents()| <= to.Length
      modifies to
      ensures ep2 == |Contents()| && forall i :: 0 <= i < ep2 ==> to[i] == Some(Contents()[i])
    {
      ghost var es := Contents();
      ep2 := 0;
      while environ[ep2] != None
        invariant ep2 <= |es| && environ[..] == old(environ[..])
        invariant forall i :: 0 <= i < ep2 ==> to[i] == Some(es[i])
        decreases |es| - ep2
      {
        assert ep2 < |es| && environ[ep2] == Some(es[ep2]);
        to[ep2] := environ[ep2];
        ep2 := ep2 + 1;
      }
    }

    /** The name is not there: the string goes to the end of our own array, with the list in front of it. */
    method Append(s: string, ep1: nat, granted: bool, back: Answer) returns (rc: int)
      requires Valid() && ep1 == |Contents()|
      modifies this, env, env.bp
      ensures rc == if old(env.len) >= ep1 + 2 || granted then 0 else -1
      ensures rc == 0 ==> Valid() && Contents() == old(Contents()) + [s] && environ == env.bp
      ensures rc == 0 ==> env.len == if old(env.len) >= ep1 + 2 then old(env.len) else ep1 + 2
      ensures rc == -1 ==> environ == old(environ)
      ensures environ !in env.freed ==> Valid()
      ensures rc == -1 && environ !in env.freed ==> Contents() == old(Contents())
      ensures environ in env.freed <==> rc == -1 && old(environ == env.bp) && back == Moves
      ensures env.bp == null || env.bp == old(env.bp) || fresh(env.bp)
    {
      ghost var es, was := Contents(), environ[..];
      var ours := env.bp == environ;
      rc := env.Check(ep1 + 2, granted, back);
      if rc < 0 { return; }
      var ep2 := ep1;
      if ours {
        assert forall i :: 0 <= i < ep1 ==> env.bp[i] == was[i];
      } else {
        ep2 := CopyList(env.bp);
      }
      env.bp[ep2] := Some(s);
      env.bp[ep2 + 1] := None;
      environ := env.bp;
      EntriesAre(environ[..], es + [s]);
    }

    /** tet_putenv(), given what malloc() and realloc() answer */
    method Putenv(s: string, granted: bool, back: Answer) returns (rc: int)
      requires Valid()
      modifies this, environ, env, env.bp
      ensures rc == if old(MustGrow(s)) && !granted then -1 else 0
      ensures rc == 0 ==> Valid() && Contents() == Put(old(Contents()), s)
      ensures old(MustGrow(s)) && rc == 0 ==> environ == env.bp && env.len == |Contents()| + 1
      ensures rc == -1 ==> environ == old(environ)
      ensures rc == -1 && environ !in env.freed ==> Valid() && Contents() == old(Contents())
      ensures environ in env.freed <==> old(WillDangle(s, granted, back))
      ensures env.bp == null || env.bp == old(env.bp) || fresh(env.bp)
    {
      var ep1 := Search(s);
      if environ[ep1] != None {
        ghost var es := Contents();
        environ[ep1] := Some(s);
        EntriesAre(environ[..], es[ep1 := s]);
        return 0;
      }
      rc := Append(s, ep1, granted, back);
    }
  }

  /** Two strings are put.  The second time our own array is refused more room, and moved. */
  method DanglingRun() returns (e: Environment, rc: int)
    ensures fresh(e) && rc == -1 && e.environ in e.env.freed
  {
    var inherited := new Option<string>[1][None];
    EntriesAre(inherited[..], []);
    e := new Environment(inherited);
    assert !IsAssignment("A") && !IsAssignment("B") && e.Contents() == [];
    rc := e.Putenv("A", true, Moves);
    assert e.Contents() == ["A"] && e.env.len == 2;
    rc := e.Putenv("B", false, Moves);
  }
}

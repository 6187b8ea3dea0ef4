/** The C API's view of the test list: invocable components, their test purposes and test numbers. */
module TestList {
  import opened Options

  /** An entry of tet_testlist[]: a test purpose function and the invocable component it belongs to. */
  datatype Test<F> = Test(func: F, icref: int)

  // ---------------------------------------------------------------- test numbers

  /** How many of the first n tests belong to the component. */
  function Count<F>(list: seq<Test<F>>, ic: int, n: nat): nat
    requires n <= |list|
  {
    if n == 0 then 0 else Count(list, ic, n - 1) + if list[n - 1].icref == ic then 1 else 0
  }

  /** The test that is number tp of its component, among the first n, counting from 1; else 0. */
  function TestNum<F>(list: seq<Test<F>>, ic: int, tp: int, n: nat): (r: nat)
    requires n <= |list|
    ensures r <= n
  {
    if n == 0 then 0 else
      var r := TestNum(list, ic, tp, n - 1);
      if r > 0 then r else if list[n - 1].icref == ic && Count(list, ic, n) == tp then n else 0
  }

  lemma {:induction false} CountGrows<F>(list: seq<Test<F>>, ic: int, m: nat, n: nat)
    requires m <= n <= |list|
    ensures Count(list, ic, m) <= Count(list, ic, n)
    ensures m < n && list[n - 1].icref == ic ==> Count(list, ic, m) < Count(list, ic, n)
  {
    if m < n { CountGrows(list, ic, m, n - 1); }
  }

  /** A test number is 0 exactly for the pairs that are not defined; otherwise it leads back to the pair. */
  lemma {:induction false} TestNumIs<F>(list: seq<Test<F>>, ic: int, tp: int, n: nat)
    requires n <= |list|
    ensures var r := TestNum(list, ic, tp, n);
            && (r > 0 <==> 1 <= tp <= Count(list, ic, n))
            && (r > 0 ==> list[r - 1].icref == ic && Count(list, ic, r) == tp)
  {
    if n > 0 { TestNumIs(list, ic, tp, n - 1); }
  }

  /** Different pairs have different numbers. */
  lemma TestNumInjective<F>(list: seq<Test<F>>, ic: int, tp: int, ic': int, tp': int)
    requires 1 <= tp <= Count(list, ic, |list|) && 1 <= tp' <= Count(list, ic', |list|)
    requires TestNum(list, ic, tp, |list|) == TestNum(list, ic', tp', |list|)
    ensures ic == ic' && tp == tp'
  {
    TestNumIs(list, ic, tp, |list|);
    TestNumIs(list, ic', tp', |list|);
  }

  /** Every number from 1 to the number of tests belongs to a pair. */
  lemma TestNumOnto<F>(list: seq<Test<F>>, r: nat)
    requires 1 <= r <= |list|
    ensures var ic := list[r - 1].icref;
            var tp := Count(list, ic, r);
            1 <= tp <= Count(list, ic, |list|) && TestNum(list, ic, tp, |list|) == r
  {
    var ic := list[r - 1].icref;
    var tp := Count(list, ic, r);
    CountGrows(list, ic, r, |list|);
    TestNumIs(list, ic, tp, |list|);
    var r' := TestNum(list, ic, tp, |list|);
    if r < r' { CountGrows(list, ic, r, r'); } else if r' < r { CountGrows(list, ic, r', r); }
  }

  /** Within a component, numbers follow the order of the test purposes. */
  lemma TestNumIncreases<F>(list: seq<Test<F>>, ic: int, tp: int, tp': int)
    requires 1 <= tp < tp' <= Count(list, ic, |list|)
    ensures TestNum(list, ic, tp, |list|) < TestNum(list, ic, tp', |list|)
  {
    TestNumIs(list, ic, tp, |list|);
    TestNumIs(list, ic, tp', |list|);
    var r, r' := TestNum(list, ic, tp, |list|), TestNum(list, ic, tp', |list|);
    if r' <= r { CountGrows(list, ic, r', r); }
  }

  // ---------------------------------------------------------------- the code

  /** tet_isdefic() */
  method IsDefIc<F>(list: seq<Test<F>>, icnum: int) returns (defined: bool)
    ensures defined <==> exists i :: 0 <= i < |list| && list[i].icref == icnum
  {
    for tp := 0 to |list|
      invariant forall i :: 0 <= i < tp ==> list[i].icref != icnum
    {
      if list[tp].icref == icnum { return true; }
    }
    defined := false;
  }

  /** tet_gettpcount() */
  method GetTpCount<F>(list: seq<Test<F>>, icnum: int) returns (tpcount: nat)
    ensures tpcount == Count(list, icnum, |list|)
  {
    tpcount := 0;
    for tp := 0 to |list|
      invariant tpcount == Count(list, icnum, tp)
    {
      if list[tp].icref == icnum { tpcount := tpcount + 1; }
    }
  }

  /** tet_gettestnum() */
  method GetTestNum<F>(list: seq<Test<F>>, icnum: int, tpnum: int) returns (testnum: nat)
    ensures testnum == TestNum(list, icnum, tpnum, |list|)
  {
    testnum := 0;
    var left := tpnum;
    for tp := 0 to |list|
      invariant testnum == tp && left == tpnum - Count(list, icnum, tp)
      invariant TestNum(list, icnum, tpnum, tp) == 0
    {
      testnum := testnum + 1;
      if list[tp].icref == icnum {
        left := left - 1;
        if left == 0 {
          FirstKept(list, icnum, tpnum, tp + 1, |list|);
          return;
        }
      }
    }
    testnum := 0;
  }

  lemma {:induction false} FirstKept<F>(list: seq<Test<F>>, ic: int, tp: int, m: nat, n: nat)
    requires m <= n <= |list| && TestNum(list, ic, tp, m) > 0
    ensures TestNum(list, ic, tp, n) == TestNum(list, ic, tp, m)
  {
    if m < n { FirstKept(list, ic, tp, m, n - 1); }
  }

  /** tet_invoketp(): answers the function that it calls, which is the one with the pair's test number. */
  method InvokeTp<F>(list: seq<Test<F>>, icnum: int, tpnum: int) returns (invoked: Option<F>)
    ensures var r := TestNum(list, icnum, tpnum, |list|);
            invoked == if r > 0 then Some(list[r - 1].func) else None
  {
    var left := tpnum;
    for tp := 0 to |list|
      invariant left == tpnum - Count(list, icnum, tp)
      invariant TestNum(list, icnum, tpnum, tp) == 0
    {
      if list[tp].icref == icnum {
        left := left - 1;
        if left == 0 {
          FirstKept(list, icnum, tpnum, tp + 1, |list|);
          return Some(list[tp].func);
        }
      }
    }
    invoked := None;
  }

  predicate Defines<F>(list: seq<Test<F>>, ic: int) {
    exists i :: 0 <= i < |list| && list[i].icref == ic
  }

  /** tet_getmaxic(): the highest component defined, or 0 if that is higher. */
  method GetMaxIc<F>(list: seq<Test<F>>) returns (icmax: int)
    ensures icmax >= 0 && (icmax == 0 || Defines(list, icmax))
    ensures forall i :: 0 <= i < |list| ==> list[i].icref <= icmax
  {
    icmax := 0;
    for tp := 0 to |list|
      invariant icmax >= 0 && (icmax == 0 || Defines(list, icmax))
      invariant forall i :: 0 <= i < tp ==> list[i].icref <= icmax
    {
      if list[tp].icref > icmax { icmax := list[tp].icref; }
    }
  }

  /**
    tet_getminic(): `first` is the component of the first entry, or of the terminating entry of an
    empty list.  The answer is the lowest component that is defined and not negative, unless the
    list begins with a negative one: then it is 0, whether or not component 0 is defined.
   */
  method GetMinIc<F>(list: seq<Test<F>>, first: int) returns (icmin: int)
    requires list != [] ==> first == list[0].icref
    ensures icmin >= 0 && forall i :: 0 <= i < |list| && list[i].icref >= 0 ==> icmin <= list[i].icref
    ensures list != [] ==> (Defines(list, icmin) <==> first >= 0 || Defines(list, 0))
    ensures first < 0 ==> icmin == 0
  {
    icmin := if first > 0 then first else 0;
    for tp := 0 to |list|
      invariant icmin >= 0 && forall i :: 0 <= i < tp && list[i].icref >= 0 ==> icmin <= list[i].icref
      invariant list != [] && first >= 0 ==> Defines(list, icmin)
      invariant first < 0 ==> icmin == 0
    {
      if list[tp].icref >= 0 && list[tp].icref < icmin { icmin := list[tp].icref; }
    }
  }
}

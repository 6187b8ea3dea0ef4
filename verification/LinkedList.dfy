/** tet_listinsert() and tet_listremove(): a doubly linked list that is changed in place. */
module LinkedList {

  class Elem<T(0)> {
    var next: Elem?<T>
    var last: Elem?<T>
    var data: T

    /** Fresh from malloc(), the fields are arbitrary. */
    constructor () { }
  }

  /** The element at position i, or null beyond either end. */
  function Link<T(0)>(elems: seq<Elem<T>>, i: int): Elem?<T> {
    if 0 <= i < |elems| then elems[i] else null
  }

  function Without<T>(s: seq<T>, k: nat): (r: seq<T>)
    requires k < |s|
    ensures |r| == |s| - 1
    ensures forall i :: 0 <= i < |r| ==> r[i] == s[if i < k then i else i + 1]
  {
    seq(|s| - 1, i requires 0 <= i < |s| - 1 => s[if i < k then i else i + 1])
  }

  /** s with its k-th element moved to the front. */
  function Fronted<T>(s: seq<T>, k: nat): (r: seq<T>)
    requires k < |s|
    ensures |r| == |s| && r[0] == s[k]
    ensures forall i :: 0 < i < |r| ==> r[i] == s[if i <= k then i - 1 else i]
  {
    seq(|s|, i requires 0 <= i < |s| => s[if i == 0 then k else if i <= k then i - 1 else i])
  }

  lemma FrontedElements<T>(s: seq<T>, k: nat)
    requires k < |s|
    ensures (set e | e in Fronted(s, k)) == (set e | e in s)
  {
    var r := Fronted(s, k);
    forall e | e in s ensures e in r {
      var i :| 0 <= i < |s| && s[i] == e;
      assert e == r[if i < k then i + 1 else if i == k then 0 else i];
    }
  }

  class List<T(0)> {
    var head: Elem?<T>
    ghost var elems: seq<Elem<T>>

    /** next and last are mutually inverse along a chain from head to null that repeats no element. */
    ghost predicate Valid()
      reads this, elems
    {
      && head == Link(elems, 0)
      && (forall i, j :: 0 <= i < j < |elems| ==> elems[i] != elems[j])
      && (forall i {:trigger elems[i].next} :: 0 <= i < |elems| ==> elems[i].next == Link(elems, i + 1))
      && (forall i {:trigger elems[i].last} :: 0 <= i < |elems| ==> elems[i].last == Link(elems, i - 1))
    }

    ghost function Contents(): (s: seq<T>)
      reads this, elems
      ensures |s| == |elems| && forall i :: 0 <= i < |s| ==> s[i] == elems[i].data
    {
      seq(|elems|, i requires 0 <= i < |elems| reads this, elems => elems[i].data)
    }

    constructor ()
      ensures Valid() && elems == []
    {
      head, elems := null, [];
    }

    /** tet_listinsert() */
    method Insert(elem: Elem<T>)
      requires Valid() && elem !in elems
      modifies this, elem, elems
      ensures Valid() && elems == [elem] + old(elems)
      ensures elem.data == old(elem.data) && forall e :: e in old(elems) ==> e.data == old(e.data)
    {
      if head != null { head.last := elem; }
      elem.next := head;
      elem.last := null;
      head := elem;
      elems := [elem] + elems;
    }

    /** tet_listremove() followed by tet_listinsert(). */
    method Front(elem: Elem<T>, ghost k: nat)
      requires Valid() && k < |elems| && elems[k] == elem
      modifies this, elems
      ensures Valid() && elems == Fronted(old(elems), k)
      ensures forall e :: e in old(elems) ==> e.data == old(e.data)
    {
      Remove(elem, k);
      Insert(elem);
    }

    /** tet_listremove() */
    method Remove(elem: Elem<T>, ghost k: nat)
      requires Valid() && k < |elems| && elems[k] == elem
      modifies this, elems
      ensures Valid() && elems == Without(old(elems), k) && elem !in elems
      ensures elem.next == null == elem.last
      ensures forall e :: e in old(elems) ==> e.data == old(e.data)
    {
      ghost var es := elems;
      assert elem.next == Link(es, k + 1) && elem.last == Link(es, k - 1);
      if elem.next != null { elem.next.last := elem.last; }
      if elem.last != null {
        elem.last.next := elem.next;
      } else {
        assert elem == head;
        head := elem.next;
      }
      elem.last, elem.next := null, null;
      elems := Without(es, k);
      forall i | 0 <= i < |elems|
        ensures elems[i].next == Link(elems, i + 1) && elems[i].last == Link(elems, i - 1)
      {
        var j := if i < k then i else i + 1;
        assert elems[i] == es[j] != elem;
        assert j != k - 1 ==> es[j].next == old(es[j].next) == Link(es, j + 1);
        assert j != k + 1 ==> es[j].last == old(es[j].last) == Link(es, j - 1);
      }
    }
  }
}

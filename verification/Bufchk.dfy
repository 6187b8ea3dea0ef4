/** The grow-only buffer of tet_bufchk(), counted in elements rather than bytes. */
module Bufchk {

  /** malloc(): fresh storage with arbitrary contents if it is granted, or null. */
  method Malloc<T(0)>(n: nat, granted: bool) returns (a: array?<T>)
    ensures if granted then a != null && fresh(a) && a.Length == n else a == null
  {
    if granted { a := new T[n]; } else { a := null; }
  }

  /** What realloc() may do.  Storage of another size is other storage, wherever it is. */
  datatype Answer = Refused | Stays | Moves

  /**
    realloc(): the old contents, cut or continued to the new size, or null with the old storage kept.
    Storage of the same size may stay where it is; otherwise the old storage is free.
   */
  method Realloc<T(0)>(old_: array<T>, n: nat, answer: Answer) returns (a: array?<T>)
    ensures a == null <==> answer == Refused
    ensures a != null ==> a.Length == n
    ensures answer == Stays && n == old_.Length ==> a == old_
    ensures answer == Moves || (answer == Stays && n != old_.Length) ==> fresh(a)
    ensures a != null ==> forall i :: 0 <= i < n && i < old_.Length ==> a[i] == old_[i]
  {
    if answer == Stays && n == old_.Length { return old_; }
    a := Malloc(n, answer != Refused);
    if a != null {
      forall i | 0 <= i < n && i < old_.Length { a[i] := old_[i]; }
    }
  }

  /** What a buffer is told when it is to grow: whether there is room, and what becomes of the old buffer if not. */
  datatype Growth = Growth(granted: bool, back: Answer)

  /** A caller's buffer pointer and length, *bpp and *lp. */
  class Buffer<T(0)> {
    var bp: array?<T>
    var len: nat
    /** Storage that realloc() has moved away from: nobody may use it any more. */
    ghost var freed: set<array<T>>

    ghost predicate Valid()
      reads this
    {
      if bp == null then len == 0 else len == bp.Length && bp !in freed
    }

    /** What the buffer holds. */
    ghost function Contents(): (s: seq<T>)
      requires Valid()
      reads this, bp
      ensures |s| == len
    {
      if bp == null then [] else bp[..]
    }

    constructor ()
      ensures Valid() && bp == null && freed == {}
    {
      bp, len, freed := null, 0, {};
    }

    /**
      tet_bufchk(): make room for newlen elements, given whether the room is granted and what becomes of the
      old buffer if it is not.  Success never loses contents and never shrinks; failure keeps everything, or
      loses the whole buffer if even the old size is refused.
     */
    method Check(newlen: nat, granted: bool, back: Answer) returns (rc: int)
      requires Valid()
      modifies this
      ensures Valid() && rc == if old(len) >= newlen || granted then 0 else -1
      ensures rc == 0 ==> len == if old(len) >= newlen then old(len) else newlen
      ensures rc == 0 ==> old(Contents()) <= Contents()
      ensures old(len) >= newlen ==> bp == old(bp)
      ensures old(len) < newlen && rc == 0 ==> bp != null && fresh(bp)
      ensures rc == -1 ==> if old(bp) == null || back == Refused then bp == null else Contents() == old(Contents())
      ensures rc == -1 && old(bp) != null ==> (back == Stays ==> bp == old(bp)) && (back == Moves ==> fresh(bp))
      ensures forall a :: a in freed <==> a in old(freed) || (a == old(bp) && bp != null && bp != old(bp))
    {
      if len >= newlen { return 0; }
      var p: array?<T>;
      if bp == null {
        p := Malloc(newlen, granted);
      } else {
        p := Realloc(bp, newlen, if granted then Moves else Refused);
      }
      if p != null {
        assert bp != null ==> bp[..] == p[..len];
        freed := freed + if bp == null then {} else {bp};
        bp, len := p, newlen;
        return 0;
      }
      if bp != null {
        p := Realloc(bp, len, back);
        if p == null {
          len := 0;
        } else {
          assert bp[..] == p[..];
          freed := freed + if p == bp then {} else {bp};
        }
        bp := p;
      } else {
        len := 0;
      }
      rc := -1;
    }
  }
}

/**
  The pair of growing buffers in which tet_vprintf() and tet_minfoline() assemble their lines: the
  text of all the lines, each with its terminator, and the offset of each line in that text.
 */
module LineBuffer {
  import opened Bufchk

  const NUL := 0 as char

  /** What the text buffer holds once the first n lines are in it. */
  function Image(lines: seq<string>, n: nat): (s: string)
    requires n <= |lines|
  {
    if n == 0 then "" else Image(lines, n - 1) + lines[n - 1] + [NUL]
  }

  /** Each line's length plus one: what a call reports as written. */
  function Bytes(lines: seq<string>, n: nat): nat
    requires n <= |lines|
  {
    if n == 0 then 0 else Bytes(lines, n - 1) + |lines[n - 1]| + 1
  }

  lemma {:induction false} ImageLength(lines: seq<string>, n: nat)
    requires n <= |lines|
    ensures |Image(lines, n)| == Bytes(lines, n)
  {
    if n > 0 { ImageLength(lines, n - 1); }
  }

  lemma {:induction false} ImageExtends(lines: seq<string>, line: string, n: nat)
    requires n <= |lines|
    ensures Image(lines + [line], n) == Image(lines, n) && Bytes(lines + [line], n) == Bytes(lines, n)
  {
    if n > 0 { ImageExtends(lines, line, n - 1); }
  }

  /** The C string at position p. */
  predicate CString(buf: string, p: nat, t: string) {
    p + |t| < |buf| && buf[p..p + |t|] == t && buf[p + |t|] == NUL && NUL !in t
  }

  /** The saved offsets find the lines again in the finished text. */
  lemma {:induction false} LineAtOffset(lines: seq<string>, k: nat, n: nat)
    requires k < n <= |lines| && NUL !in lines[k]
    ensures CString(Image(lines, n), Bytes(lines, k), lines[k])
  {
    ImageLength(lines, k);
    ImageLength(lines, n - 1);
    if k < n - 1 {
      LineAtOffset(lines, k, n - 1);
      var p, t, before := Bytes(lines, k), lines[k], Image(lines, n - 1);
      assert Image(lines, n)[p..p + |t|] == before[p..p + |t|];
    } else {
      assert Image(lines, n)[Bytes(lines, k)..Bytes(lines, k) + |lines[k]|] == lines[k];
    }
  }

  /** strlen() and the characters it passes over. */
  method ReadString(buf: array<char>, p: nat, ghost t: string) returns (s: string)
    requires CString(buf[..], p, t)
    ensures s == t
  {
    assert forall i :: p <= i < p + |t| ==> buf[i] == buf[..][p..p + |t|][i - p] != NUL;
    var q := p;
    while buf[q] != NUL
      invariant p <= q <= p + |t|
      invariant forall i :: p <= i < q ==> buf[i] != NUL
      decreases p + |t| - q
    {
      q := q + 1;
    }
    s := buf[p..q];
    assert s == buf[..][p..p + |t|];
  }

  /** strcpy() */
  method StrCpy(buf: array<char>, at: nat, t: string)
    requires at + |t| < buf.Length
    modifies buf
    ensures buf[..] == old(buf[..at]) + t + [NUL] + old(buf[at + |t| + 1..])
  {
    for i := 0 to |t|
      invariant buf[..at] == old(buf[..at]) && buf[at..at + i] == t[..i] && buf[at + i..] == old(buf[at + i..])
    {
      buf[at + i] := t[i];
    }
    assert t[..|t|] == t;
    buf[at + |t|] := NUL;
  }

  class LineBuffer {
    const outbuf: Buffer<char>
    const lineoffsets: Buffer<int>
    var outpos: nat
    var noutlines: nat
    ghost var lines: seq<string>

    /** Both buffers are exactly full. */
    ghost predicate Valid()
      reads this, outbuf, outbuf.bp, lineoffsets, lineoffsets.bp
    {
      && outbuf.Valid() && lineoffsets.Valid() && noutlines == |lines| == lineoffsets.len
      && (outbuf.bp == null || lineoffsets.bp == null || (outbuf.bp as object) != lineoffsets.bp)
      && outbuf.Contents() == Image(lines, |lines|) && outpos == Bytes(lines, |lines|)
      && forall k :: 0 <= k < |lines| ==> lineoffsets.Contents()[k] == Bytes(lines, k)
    }

    constructor ()
      ensures Valid() && lines == [] && fresh(outbuf) && fresh(lineoffsets)
      ensures outbuf.bp == null && lineoffsets.bp == null
    {
      outbuf := new Buffer<char>();
      lineoffsets := new Buffer<int>();
      outpos, noutlines, lines := 0, 0, [];
    }

    /**
      One round of the assembly loops: make room, copy the line and remember its offset.  Both buffers have
      to grow.
     */
    method AddLine(linebuf: string, first: Growth, second: Growth) returns (ok: bool)
      requires Valid()
      modifies this, outbuf, outbuf.bp, lineoffsets, lineoffsets.bp
      ensures ok <==> first.granted && second.granted
      ensures ok ==> Valid() && lines == old(lines) + [linebuf]
      ensures ok ==> fresh(outbuf.bp) && fresh(lineoffsets.bp)
    {
      ghost var was, offs := outbuf.Contents(), lineoffsets.Contents();
      ImageLength(lines, |lines|);
      var len := |linebuf| + 1;
      var rc := outbuf.Check(outbuf.len + len, first.granted, first.back);
      if rc < 0 { return false; }
      rc := lineoffsets.Check(lineoffsets.len + 1, second.granted, second.back);
      if rc < 0 { return false; }
      StrCpy(outbuf.bp, outpos, linebuf);
      lineoffsets.bp[noutlines] := outpos;
      assert outbuf.Contents() == was + linebuf + [NUL];
      outpos, noutlines := outpos + len, noutlines + 1;
      ghost var before := lines;
      lines := lines + [linebuf];
      forall k | 0 <= k <= |before| ensures Image(lines, k) == Image(before, k) && Bytes(lines, k) == Bytes(before, k) {
        ImageExtends(before, linebuf, k);
      }
      ok := true;
    }
  }
}

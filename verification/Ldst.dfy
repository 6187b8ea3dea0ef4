/**
  The descriptor-driven serializer: tet_st2bs() packs a structure into a machine-independent byte
  stream, tet_bs2st() unpacks it.  A structure is an array of scalar cells, one for each member
  element, and st_stoff counts cells; the stream is an array of bytes.
 */
module Ldst {

  type byte = x: int | 0 <= x < 256

  datatype Kind = Char | Short | UShort | Long | Unknown

  /** One element of a structure description: `count` objects of one kind. */
  datatype Desc = Desc(kind: Kind, count: nat, bsoff: nat, stoff: nat)

  /** A short st_type holds a type code in its top 4 bits and a count in its bottom 12. */
  function TypeCode(k: Kind): int
    requires k != Unknown
  {
    match k
    case Char => 0x1000
    case Short => 0x2000
    case UShort => 0x3000
    case Long => 0x4000
  }

  function DescOf(sttype: int, bsoff: nat, stoff: nat): Desc {
    var count := sttype % 0x1000;
    var code := sttype - count;
    Desc(if code == 0x1000 then Char else if code == 0x2000 then Short else if code == 0x3000 then UShort
         else if code == 0x4000 then Long else Unknown, count, bsoff, stoff)
  }

  /** The ST_... macros mask the count to 12 bits, so larger arrays are described wrongly. */
  lemma TypeKeepsCount(k: Kind, n: nat, bsoff: nat, stoff: nat)
    requires k != Unknown
    ensures DescOf(TypeCode(k) + n % 0x1000, bsoff, stoff) == Desc(k, n, bsoff, stoff) <==> n < 0x1000
  {
  }

  /** Bytes taken on the stream by one object; an unknown type is reported and skipped. */
  function Width(k: Kind): nat {
    match k
    case Char => 1
    case Short => 2
    case UShort => 2
    case Long => 4
    case Unknown => 0
  }

  /** n * w, by repeated addition as the loops advance their pointers. */
  function Span(w: nat, n: nat): nat {
    if n == 0 then 0 else Span(w, n - 1) + w
  }

  lemma {:induction false} SpanIsProduct(w: nat, n: nat)
    ensures Span(w, n) == n * w
  {
    if n > 0 { SpanIsProduct(w, n - 1); }
  }

  /** Element i of n lies within their span. */
  lemma {:induction false} SpanRoom(w: nat, i: nat, n: nat)
    requires i < n
    ensures Span(w, i + 1) == Span(w, i) + w <= Span(w, n)
  {
    if i < n - 1 { SpanRoom(w, i, n - 1); }
  }

  /** st16(): high byte first, on the low 16 bits of x. */
  function St16(x: int): (bs: seq<byte>)
    ensures |bs| == 2
  {
    [x / 256 % 256, x % 256]
  }

  /** ld16u() */
  function Ld16u(hi: int, lo: int): int {
    hi * 256 + lo
  }

  /** A byte as a signed char. */
  function SignedByte(b: int): int {
    if b < 128 then b else b - 256
  }

  /** ld16(): the high byte is a signed char. */
  function Ld16(hi: int, lo: int): int {
    SignedByte(hi) * 256 + lo
  }

  function Enc(k: Kind, x: int): (bs: seq<byte>)
    ensures |bs| == Width(k)
  {
    match k
    case Char => [x % 256]
    case Short => St16(x)
    case UShort => St16(x)
    case Long => St16(x / 0x1_0000) + St16(x)
    case Unknown => []
  }

  function Dec(k: Kind, bs: seq<byte>): int
    requires |bs| == Width(k)
  {
    match k
    case Char => SignedByte(bs[0])
    case Short => Ld16(bs[0], bs[1])
    case UShort => Ld16u(bs[0], bs[1])
    case Long => Ld16(bs[0], bs[1]) * 0x1_0000 + Ld16u(bs[2], bs[3])
    case Unknown => 0
  }

  /** The values that the stream's 8, 16 or 32 bits can carry. */
  predicate Fits(k: Kind, x: int) {
    match k
    case Char => -0x80 <= x < 0x80
    case Short => -0x8000 <= x < 0x8000
    case UShort => 0 <= x < 0x1_0000
    case Long => -0x8000_0000 <= x < 0x8000_0000
    case Unknown => false
  }

  function Signed16(r: int): int {
    if r < 0x8000 then r else r - 0x1_0000
  }

  lemma Halves(x: int)
    ensures Ld16u(St16(x)[0], St16(x)[1]) == x % 0x1_0000
    ensures Ld16(St16(x)[0], St16(x)[1]) == Signed16(x % 0x1_0000)
  {
  }

  lemma SignedFits(x: int)
    ensures Signed16(x % 0x1_0000) == x <==> -0x8000 <= x < 0x8000
    ensures x % 0x1_0000 == x <==> 0 <= x < 0x1_0000
  {
  }

  /** A value survives the stream exactly when it fits. */
  lemma DecEnc(k: Kind, x: int)
    requires k != Unknown
    ensures Dec(k, Enc(k, x)) == x <==> Fits(k, x)
  {
    Halves(x);
    SignedFits(x);
    if k == Long { DecEncLong(x); }
  }

  lemma DecEncLong(x: int)
    ensures Dec(Long, Enc(Long, x)) == x <==> Fits(Long, x)
  {
    var bs, h, r := Enc(Long, x), x / 0x1_0000, x % 0x1_0000;
    Halves(h);
    Halves(x);
    SignedFits(h);
    assert Dec(Long, bs) == Ld16(St16(h)[0], St16(h)[1]) * 0x1_0000 + Ld16u(St16(x)[0], St16(x)[1]);
    SplitLong(x, h, r, Signed16(h % 0x1_0000));
  }

  lemma SplitLong(x: int, h: int, r: int, s: int)
    requires x == h * 0x1_0000 + r && 0 <= r < 0x1_0000 && (s == h <==> -0x8000 <= h < 0x8000)
    ensures s * 0x1_0000 + r == x <==> Fits(Long, x)
  {
  }

  /** Bytes read as one number, the first of them the highest. */
  function Number(bs: seq<byte>): nat {
    if bs == [] then 0 else Number(bs[..|bs| - 1]) * 0x100 + bs[|bs| - 1]
  }

  /** The stream is independent of the host's byte order: high byte first, in one, two or four bytes. */
  lemma HighByteFirst(k: Kind, x: int)
    requires k != Unknown
    ensures match k
            case Char => |Enc(k, x)| == 1 && Number(Enc(k, x)) == x % 0x100
            case Short => |Enc(k, x)| == 2 && Number(Enc(k, x)) == x % 0x1_0000
            case UShort => |Enc(k, x)| == 2 && Number(Enc(k, x)) == x % 0x1_0000
            case Long => |Enc(k, x)| == 4 && Number(Enc(k, x)) == x % 0x1_0000_0000
  {
    NumberOf(x % 0x100);
    NumberOfTwo(x / 0x100 % 0x100, x % 0x100);
    if k == Long {
      var h := x / 0x1_0000;
      NumberOfTwo(h / 0x100 % 0x100, h % 0x100);
      NumberOfFour(St16(h), St16(x));
      assert h % 0x1_0000 * 0x1_0000 + x % 0x1_0000 == x % 0x1_0000_0000;
    }
  }

  lemma NumberOf(a: byte)
    ensures Number([a]) == a
  {
    assert [a][..0] == [];
  }

  lemma NumberOfTwo(a: byte, b: byte)
    ensures Number([a, b]) == a * 0x100 + b
  {
    NumberOf(a);
    assert [a, b][..1] == [a];
  }

  lemma NumberOfFour(s: seq<byte>, t: seq<byte>)
    requires |t| == 2
    ensures Number(s + t) == Number(s) * 0x1_0000 + Number(t)
  {
    NumberOfTwo(t[0], t[1]);
    assert t == [t[0], t[1]];
    assert (s + t)[..|s| + 1] == s + [t[0]] && (s + [t[0]])[..|s|] == s;
  }

  /** s with t written over it from `at` on, one byte after the other. */
  function Overwrite(s: seq<byte>, at: nat, t: seq<byte>): (r: seq<byte>)
    requires at + |t| <= |s|
    ensures |r| == |s|
  {
    if t == [] then s else Overwrite(s, at, t[..|t| - 1])[at + |t| - 1 := t[|t| - 1]]
  }

  lemma {:induction false} OverwriteAt(s: seq<byte>, at: nat, t: seq<byte>, p: nat)
    requires at + |t| <= |s| && p < |s|
    ensures Overwrite(s, at, t)[p] == if at <= p < at + |t| then t[p - at] else s[p]
  {
    if t != [] { OverwriteAt(s, at, t[..|t| - 1], p); }
  }

  predicate Uniform(blocks: seq<seq<byte>>, w: nat) {
    forall i :: 0 <= i < |blocks| ==> |blocks[i]| == w
  }

  /** The stream s after the first n blocks have been stored from byte `at` on. */
  function Stored(s: seq<byte>, at: nat, blocks: seq<seq<byte>>, w: nat, n: nat): (r: seq<byte>)
    requires Uniform(blocks, w) && n <= |blocks| && at + Span(w, n) <= |s|
    ensures |r| == |s|
  {
    if n == 0 then s else Overwrite(Stored(s, at, blocks, w, n - 1), at + Span(w, n - 1), blocks[n - 1])
  }

  /** Storing leaves other bytes alone, */
  lemma {:induction false} StoredOutside(s: seq<byte>, at: nat, blocks: seq<seq<byte>>, w: nat, n: nat, p: nat)
    requires Uniform(blocks, w) && n <= |blocks| && at + Span(w, n) <= |s|
    requires p < |s| && (p < at || at + Span(w, n) <= p)
    ensures Stored(s, at, blocks, w, n)[p] == s[p]
  {
    if n > 0 {
      StoredOutside(s, at, blocks, w, n - 1, p);
      OverwriteAt(Stored(s, at, blocks, w, n - 1), at + Span(w, n - 1), blocks[n - 1], p);
    }
  }

  /** and puts each byte of each block in its place. */
  lemma {:induction false} StoredByte(s: seq<byte>, at: nat, blocks: seq<seq<byte>>, w: nat, n: nat, i: nat, b: nat)
    requires Uniform(blocks, w) && n <= |blocks| && at + Span(w, n) <= |s| && i < n && b < w
    ensures at + Span(w, i) + b < |s| && Stored(s, at, blocks, w, n)[at + Span(w, i) + b] == blocks[i][b]
  {
    SpanRoom(w, i, n);
    if i < n - 1 {
      SpanRoom(w, i, n - 1);
      StoredByte(s, at, blocks, w, n - 1, i, b);
    }
    OverwriteAt(Stored(s, at, blocks, w, n - 1), at + Span(w, n - 1), blocks[n - 1], at + Span(w, i) + b);
  }

  /** n elements from cell `off` on, each encoded. */
  function Encoded(k: Kind, cells: seq<int>, off: nat, n: nat): (blocks: seq<seq<byte>>)
    requires off + n <= |cells|
    ensures |blocks| == n && Uniform(blocks, Width(k))
  {
    var blocks := seq(n, i requires 0 <= i < n => Enc(k, cells[off + i]));
    assert forall i :: 0 <= i < n ==> blocks[i] == Enc(k, cells[off + i]);
    blocks
  }

  /** The bytes of element i of an array that starts at byte `at`. */
  function Element(bytes: seq<byte>, at: nat, w: nat, i: nat): (e: seq<byte>)
    requires at + Span(w, i) + w <= |bytes|
    ensures |e| == w
  {
    bytes[at + Span(w, i)..at + Span(w, i) + w]
  }

  /** The structure s after n elements, from byte `at` on, have been loaded from cell `off` on. */
  function Loaded(s: seq<int>, off: nat, k: Kind, bytes: seq<byte>, at: nat, n: nat): (r: seq<int>)
    requires off + n <= |s| && at + Span(Width(k), n) <= |bytes|
    ensures |r| == |s|
  {
    if n == 0 then s else
      Loaded(s, off, k, bytes, at, n - 1)[off + n - 1 := Dec(k, Element(bytes, at, Width(k), n - 1))]
  }

  function Size(d: Desc): nat {
    Span(Width(d.kind), d.count)
  }

  predicate InBounds(d: Desc, nbytes: nat, ncells: nat) {
    d.bsoff + Size(d) <= nbytes && d.stoff + d.count <= ncells
  }

  predicate AllInBounds(ds: seq<Desc>, nbytes: nat, ncells: nat) {
    forall i :: 0 <= i < |ds| ==> InBounds(ds[i], nbytes, ncells)
  }

  /** The stream s after one description has been packed into it. */
  function PackedOne(cells: seq<int>, s: seq<byte>, d: Desc): (r: seq<byte>)
    requires InBounds(d, |s|, |cells|)
    ensures |r| == |s|
  {
    if d.kind == Unknown then s
    else Stored(s, d.bsoff, Encoded(d.kind, cells, d.stoff, d.count), Width(d.kind), d.count)
  }

  /** The stream after the first n descriptions have been packed into it. */
  function Packed(cells: seq<int>, bytes: seq<byte>, ds: seq<Desc>, n: nat): (r: seq<byte>)
    requires AllInBounds(ds, |bytes|, |cells|) && n <= |ds|
    ensures |r| == |bytes|
  {
    if n == 0 then bytes else
      assert InBounds(ds[n - 1], |bytes|, |cells|);
      PackedOne(cells, Packed(cells, bytes, ds, n - 1), ds[n - 1])
  }

  /** The structure after the first n descriptions have been unpacked into it. */
  function Unpacked(bytes: seq<byte>, cells: seq<int>, ds: seq<Desc>, n: nat): (r: seq<int>)
    requires AllInBounds(ds, |bytes|, |cells|) && n <= |ds|
    ensures |r| == |cells|
  {
    if n == 0 then cells else
      var d := ds[n - 1];
      assert InBounds(d, |bytes|, |cells|);
      var r := Unpacked(bytes, cells, ds, n - 1);
      if d.kind == Unknown then r else Loaded(r, d.stoff, d.kind, bytes, d.bsoff, d.count)
  }

  /** Bytes described by the first n descriptions. */
  function Total(ds: seq<Desc>, n: nat): nat
    requires n <= |ds|
  {
    if n == 0 then 0 else Total(ds, n - 1) + Size(ds[n - 1])
  }

  /** p is outside d's stream bytes. */
  predicate Outside(d: Desc, p: nat) {
    p < d.bsoff || d.bsoff + Size(d) <= p
  }

  /** Packing writes only the bytes that are described. */
  lemma {:induction false} PackedOutside(cells: seq<int>, bytes: seq<byte>, ds: seq<Desc>, n: nat, p: nat)
    requires AllInBounds(ds, |bytes|, |cells|) && n <= |ds| && p < |bytes|
    requires forall i :: 0 <= i < n ==> Outside(ds[i], p)
    ensures Packed(cells, bytes, ds, n)[p] == bytes[p]
  {
    if n > 0 {
      var d, before := ds[n - 1], Packed(cells, bytes, ds, n - 1);
      assert Outside(d, p) && InBounds(d, |bytes|, |cells|);
      PackedOutside(cells, bytes, ds, n - 1, p);
      if d.kind != Unknown {
        StoredOutside(before, d.bsoff, Encoded(d.kind, cells, d.stoff, d.count), Width(d.kind), d.count, p);
      }
    }
  }

  // ---------------------------------------------------------------- round trip

  predicate Apart(d: Desc, e: Desc) {
    d.bsoff + Size(d) <= e.bsoff || e.bsoff + Size(e) <= d.bsoff
  }

  /** No two elements share stream bytes. */
  predicate StreamDisjoint(ds: seq<Desc>) {
    forall i, j :: 0 <= i < j < |ds| ==> Apart(ds[i], ds[j])
  }

  /** d describes cell p. */
  predicate Covers(d: Desc, p: nat) {
    d.kind != Unknown && d.stoff <= p < d.stoff + d.count
  }

  /** Cell p belongs to one of the first n descriptions. */
  predicate Described(ds: seq<Desc>, n: nat, p: nat)
    requires n <= |ds|
  {
    exists i :: 0 <= i < n && Covers(ds[i], p)
  }

  ghost predicate AllFit(cells: seq<int>, ds: seq<Desc>) {
    forall i, p: nat :: 0 <= i < |ds| && Covers(ds[i], p) && p < |cells| ==> Fits(ds[i].kind, cells[p])
  }

  /** Byte b of element i of d is in its place in the stream. */
  predicate ByteCarried(stream: seq<byte>, cells: seq<int>, d: Desc, i: nat, b: nat)
    requires InBounds(d, |stream|, |cells|) && i < d.count && b < Width(d.kind)
  {
    SpanRoom(Width(d.kind), i, d.count);
    stream[d.bsoff + Span(Width(d.kind), i) + b] == Enc(d.kind, cells[d.stoff + i])[b]
  }

  /** The stream holds the encoding of every element that d describes. */
  predicate Carried(stream: seq<byte>, cells: seq<int>, d: Desc)
    requires InBounds(d, |stream|, |cells|)
  {
    forall i, b :: 0 <= i < d.count && 0 <= b < Width(d.kind) ==> ByteCarried(stream, cells, d, i, b)
  }

  predicate AllCarried(stream: seq<byte>, cells: seq<int>, ds: seq<Desc>, n: nat)
    requires AllInBounds(ds, |stream|, |cells|) && n <= |ds|
  {
    forall i :: 0 <= i < n ==> InBounds(ds[i], |stream|, |cells|) && Carried(stream, cells, ds[i])
  }

  /** Packing d puts d's elements in the stream and keeps those of any e apart from it. */
  lemma CarriedAfter(before: seq<byte>, cells: seq<int>, d: Desc, e: Desc)
    requires InBounds(d, |before|, |cells|) && InBounds(e, |before|, |cells|)
    requires e == d || (Apart(e, d) && Carried(before, cells, e))
    ensures Carried(PackedOne(cells, before, d), cells, e)
  {
    var after, w := PackedOne(cells, before, d), Width(e.kind);
    forall i, b | 0 <= i < e.count && 0 <= b < w
      ensures ByteCarried(after, cells, e, i, b)
    {
      SpanRoom(w, i, e.count);
      if d.kind == Unknown {
        assert ByteCarried(before, cells, e, i, b);
      } else if e == d {
        StoredByte(before, d.bsoff, Encoded(d.kind, cells, d.stoff, d.count), w, d.count, i, b);
      } else {
        assert ByteCarried(before, cells, e, i, b);
        StoredOutside(before, d.bsoff, Encoded(d.kind, cells, d.stoff, d.count), Width(d.kind), d.count,
                      e.bsoff + Span(w, i) + b);
      }
    }
  }

  lemma {:induction false} PackedCarries(cells: seq<int>, bytes: seq<byte>, ds: seq<Desc>, n: nat, i: nat)
    requires AllInBounds(ds, |bytes|, |cells|) && StreamDisjoint(ds) && i < n <= |ds|
    ensures InBounds(ds[i], |bytes|, |cells|) && Carried(Packed(cells, bytes, ds, n), cells, ds[i])
  {
    assert InBounds(ds[i], |bytes|, |cells|) && InBounds(ds[n - 1], |bytes|, |cells|);
    if i < n - 1 {
      PackedCarries(cells, bytes, ds, n - 1, i);
      assert Apart(ds[i], ds[n - 1]);
    }
    CarriedAfter(Packed(cells, bytes, ds, n - 1), cells, ds[n - 1], ds[i]);
  }

  lemma {:induction false} LoadedCell(s: seq<int>, off: nat, k: Kind, bytes: seq<byte>, at: nat, n: nat, p: nat)
    requires off + n <= |s| && at + Span(Width(k), n) <= |bytes| && p < |s|
    ensures off <= p < off + n ==> at + Span(Width(k), p - off) + Width(k) <= |bytes|
    ensures Loaded(s, off, k, bytes, at, n)[p]
            == if off <= p < off + n then Dec(k, Element(bytes, at, Width(k), p - off)) else s[p]
  {
    if n > 0 { LoadedCell(s, off, k, bytes, at, n - 1, p); }
  }

  /** What unpacking one more description does to cell p. */
  lemma UnpackedCell(bytes: seq<byte>, cells: seq<int>, ds: seq<Desc>, n: nat, p: nat)
    requires AllInBounds(ds, |bytes|, |cells|) && 0 < n <= |ds| && p < |cells|
    ensures var d := ds[n - 1];
            if Covers(d, p)
            then d.bsoff + Span(Width(d.kind), p - d.stoff) + Width(d.kind) <= |bytes|
              && Unpacked(bytes, cells, ds, n)[p] == Dec(d.kind, Element(bytes, d.bsoff, Width(d.kind), p - d.stoff))
            else Unpacked(bytes, cells, ds, n)[p] == Unpacked(bytes, cells, ds, n - 1)[p]
  {
    var d := ds[n - 1];
    assert InBounds(d, |bytes|, |cells|);
    if d.kind != Unknown {
      LoadedCell(Unpacked(bytes, cells, ds, n - 1), d.stoff, d.kind, bytes, d.bsoff, d.count, p);
    }
  }

  /** The bytes of a carried element are its encoding. */
  lemma ElementCarried(stream: seq<byte>, cells: seq<int>, d: Desc, i: nat)
    requires InBounds(d, |stream|, |cells|) && Carried(stream, cells, d) && i < d.count
    ensures d.bsoff + Span(Width(d.kind), i) + Width(d.kind) <= |stream|
    ensures Element(stream, d.bsoff, Width(d.kind), i) == Enc(d.kind, cells[d.stoff + i])
  {
    SpanRoom(Width(d.kind), i, d.count);
    var e := Element(stream, d.bsoff, Width(d.kind), i);
    forall b | 0 <= b < |e| ensures e[b] == Enc(d.kind, cells[d.stoff + i])[b] {
      assert ByteCarried(stream, cells, d, i, b);
    }
  }

  lemma LoadRestores(stream: seq<byte>, cells: seq<int>, r: seq<int>, d: Desc, p: nat)
    requires InBounds(d, |stream|, |cells|) && |r| == |cells| && p < |cells| && d.kind != Unknown
    requires Carried(stream, cells, d) && (Covers(d, p) ==> Fits(d.kind, cells[p]))
    ensures Loaded(r, d.stoff, d.kind, stream, d.bsoff, d.count)[p] == if Covers(d, p) then cells[p] else r[p]
  {
    LoadedCell(r, d.stoff, d.kind, stream, d.bsoff, d.count, p);
    if Covers(d, p) {
      ElementCarried(stream, cells, d, p - d.stoff);
      DecEnc(d.kind, cells[p]);
    }
  }

  /** Unpacking a stream that carries every described element restores exactly the described cells. */
  lemma {:induction false} UnpackRestores(stream: seq<byte>, cells: seq<int>, target: seq<int>, ds: seq<Desc>,
                                          n: nat, p: nat)
    requires AllInBounds(ds, |stream|, |cells|) && |target| == |cells| && AllFit(cells, ds) && p < |cells|
    requires n <= |ds| && AllCarried(stream, cells, ds, n)
    ensures Unpacked(stream, target, ds, n)[p] == if Described(ds, n, p) then cells[p] else target[p]
  {
    if n > 0 {
      var d := ds[n - 1];
      assert InBounds(d, |stream|, |cells|) && Carried(stream, cells, d);
      UnpackRestores(stream, cells, target, ds, n - 1, p);
      assert Described(ds, n, p) <==> Described(ds, n - 1, p) || Covers(d, p);
      if d.kind != Unknown { LoadRestores(stream, cells, Unpacked(stream, target, ds, n - 1), d, p); }
    }
  }

  lemma PackedCarriesAll(cells: seq<int>, bytes: seq<byte>, ds: seq<Desc>)
    requires AllInBounds(ds, |bytes|, |cells|) && StreamDisjoint(ds)
    ensures AllCarried(Packed(cells, bytes, ds, |ds|), cells, ds, |ds|)
  {
    var stream := Packed(cells, bytes, ds, |ds|);
    forall i | 0 <= i < |ds| ensures InBounds(ds[i], |stream|, |cells|) && Carried(stream, cells, ds[i]) {
      PackedCarries(cells, bytes, ds, |ds|, i);
    }
  }

  /** tet_bs2st() undoes tet_st2bs(): every described cell comes back and no other cell changes. */
  lemma RoundTrip(cells: seq<int>, bytes: seq<byte>, target: seq<int>, ds: seq<Desc>, p: nat)
    requires AllInBounds(ds, |bytes|, |cells|) && |target| == |cells| && p < |cells|
    requires StreamDisjoint(ds) && AllFit(cells, ds)
    ensures Unpacked(Packed(cells, bytes, ds, |ds|), target, ds, |ds|)[p]
            == if Described(ds, |ds|, p) then cells[p] else target[p]
  {
    PackedCarriesAll(cells, bytes, ds);
    UnpackRestores(Packed(cells, bytes, ds, |ds|), cells, target, ds, |ds|, p);
  }

  lemma {:induction false} TotalGrows(ds: seq<Desc>, i: nat, j: nat)
    requires i <= j <= |ds|
    ensures Total(ds, i) <= Total(ds, j)
  {
    if i < j { TotalGrows(ds, i, j - 1); }
  }

  // ---------------------------------------------------------------- the code

  /** The store macros, one byte at a time. */
  method Put(k: Kind, x: int, to: array<byte>, tp: nat)
    requires k != Unknown && tp + Width(k) <= to.Length
    modifies to
    ensures to[..] == Overwrite(old(to[..]), tp, Enc(k, x))
  {
    ghost var s0 := to[..];
    if k == Char {
      to[tp] := x % 256;
    } else if k == Long {
      to[tp], to[tp + 1] := x / 0x1_0000 / 256 % 256, x / 0x1_0000 % 256;
      to[tp + 2], to[tp + 3] := x / 256 % 256, x % 256;
    } else {
      to[tp], to[tp + 1] := x / 256 % 256, x % 256;
    }
    forall p | 0 <= p < |s0| ensures to[..][p] == Overwrite(s0, tp, Enc(k, x))[p] {
      OverwriteAt(s0, tp, Enc(k, x), p);
    }
  }

  /** char2bs(), short2bs() and long2bs(): n elements from `fp` on go to the stream from `tp` on. */
  method PutArray(k: Kind, from: array<int>, fp: nat, to: array<byte>, tp: nat, n: nat) returns (count: nat)
    requires k != Unknown && fp + n <= from.Length && tp + Span(Width(k), n) <= to.Length
    modifies to
    ensures count == Span(Width(k), n)
    ensures to[..] == Stored(old(to[..]), tp, Encoded(k, from[..], fp, n), Width(k), n)
  {
    count := 0;
    ghost var blocks := Encoded(k, from[..], fp, n);
    for i := 0 to n
      invariant count == Span(Width(k), i) <= Span(Width(k), n)
      invariant to[..] == Stored(old(to[..]), tp, blocks, Width(k), i)
    {
      SpanRoom(Width(k), i, n);
      Put(k, from[fp + i], to, tp + count);
      count := count + Width(k);
    }
  }

  /** The load macros. */
  method Get(k: Kind, from: array<byte>, fp: nat) returns (x: int)
    requires k != Unknown && fp + Width(k) <= from.Length
    ensures x == Dec(k, from[..][fp..][..Width(k)])
  {
    var b: int := from[fp];
    var high := if b >= 0x80 then b - 0x100 else b;
    if k == Char {
      x := high;
    } else if k == UShort {
      x := b * 0x100 + from[fp + 1];
    } else {
      x := high * 0x100 + from[fp + 1];
      if k == Long {
        var low: int := from[fp + 2];
        x := x * 0x1_0000 + low * 0x100 + from[fp + 3];
      }
    }
  }

  /** bs2char(), bs2short(), bs2ushort() and bs2long(). */
  method GetArray(k: Kind, from: array<byte>, fp: nat, to: array<int>, tp: nat, n: nat) returns (count: nat)
    requires k != Unknown && fp + Span(Width(k), n) <= from.Length && tp + n <= to.Length
    modifies to
    ensures count == Span(Width(k), n)
    ensures to[..] == Loaded(old(to[..]), tp, k, from[..], fp, n)
  {
    count := 0;
    hide Loaded, Dec;
    assert to[..] == Loaded(old(to[..]), tp, k, from[..], fp, 0) by { LoadedNone(to[..], tp, k, from[..], fp); }
    for i := 0 to n
      invariant count == Span(Width(k), i) <= Span(Width(k), n)
      invariant to[..] == Loaded(old(to[..]), tp, k, from[..], fp, i)
    {
      SpanRoom(Width(k), i, n);
      ghost var s0 := to[..];
      var x := Get(k, from, fp + count);
      LoadedNext(old(to[..]), tp, k, from[..], fp, i, x);
      to[tp + i] := x;
      assert to[..] == s0[tp + i := x];
      count := count + Width(k);
    }
  }

  lemma LoadedNone(s: seq<int>, off: nat, k: Kind, bytes: seq<byte>, at: nat)
    requires off <= |s| && at <= |bytes|
    ensures Loaded(s, off, k, bytes, at, 0) == s
  {
  }

  lemma LoadedNext(s: seq<int>, off: nat, k: Kind, bytes: seq<byte>, at: nat, i: nat, x: int)
    requires k != Unknown && off + i < |s| && at + Span(Width(k), i) + Width(k) <= |bytes|
    requires Span(Width(k), i + 1) == Span(Width(k), i) + Width(k)
    requires x == Dec(k, bytes[at + Span(Width(k), i)..][..Width(k)])
    ensures Loaded(s, off, k, bytes, at, i + 1) == Loaded(s, off, k, bytes, at, i)[off + i := x]
  {
    hide Dec;
    assert bytes[at + Span(Width(k), i)..][..Width(k)] == Element(bytes, at, Width(k), i);
  }

  /** tet_st2bs() */
  method St2bs(from: array<int>, to: array<byte>, st: seq<Desc>) returns (count: nat)
    requires AllInBounds(st, to.Length, from.Length)
    modifies to
    ensures count == Total(st, |st|)
    ensures to[..] == Packed(from[..], old(to[..]), st, |st|)
  {
    count := 0;
    for i := 0 to |st|
      invariant count == Total(st, i)
      invariant to[..] == Packed(from[..], old(to[..]), st, i)
    {
      var d := st[i];
      assert InBounds(d, to.Length, from.Length);
      if d.kind != Unknown {
        var n := PutArray(d.kind, from, d.stoff, to, d.bsoff, d.count);
        count := count + n;
      } else {
        SpanIsProduct(0, d.count);
      }
    }
  }

  /** The descriptions that an unpacking of len bytes gets to are in bounds. */
  predicate ReachedInBounds(ds: seq<Desc>, len: int, nbytes: nat, ncells: nat) {
    forall i {:trigger ds[i]} :: 0 <= i < |ds| && Total(ds, i) < len ==> InBounds(ds[i], nbytes, ncells)
  }

  lemma {:induction false} UnpackedPrefix(bytes: seq<byte>, cells: seq<int>, a: seq<Desc>, b: seq<Desc>, n: nat)
    requires AllInBounds(a, |bytes|, |cells|) && AllInBounds(b, |bytes|, |cells|)
    requires n <= |a| && n <= |b| && a[..n] == b[..n]
    ensures Unpacked(bytes, cells, a, n) == Unpacked(bytes, cells, b, n)
  {
    if n > 0 {
      assert a[n - 1] == a[..n][n - 1] == b[..n][n - 1] == b[n - 1];
      assert a[..n - 1] == a[..n][..n - 1] == b[..n][..n - 1] == b[..n - 1];
      UnpackedPrefix(bytes, cells, a, b, n - 1);
    }
  }

  /** One more description is reached. */
  lemma UnpackedNext(bytes: seq<byte>, cells: seq<int>, ds: seq<Desc>, i: nat)
    requires i < |ds| && AllInBounds(ds[..i], |bytes|, |cells|) && InBounds(ds[i], |bytes|, |cells|)
    ensures AllInBounds(ds[..i + 1], |bytes|, |cells|)
    ensures var d, r := ds[i], Unpacked(bytes, cells, ds[..i], i);
            Unpacked(bytes, cells, ds[..i + 1], i + 1)
            == if d.kind == Unknown then r else Loaded(r, d.stoff, d.kind, bytes, d.bsoff, d.count)
  {
    UnpackedPrefix(bytes, cells, ds[..i], ds[..i + 1], i);
  }

  /**
    tet_bs2st(): elements are converted while fewer than `len` bytes have been consumed; k says how
    many.  The call succeeds exactly when some number of whole elements makes up `len` bytes.
   */
  method Bs2st(from: array<byte>, to: array<int>, st: seq<Desc>, len: int) returns (rc: int, ghost k: nat)
    requires ReachedInBounds(st, len, from.Length, to.Length)
    modifies to
    ensures k <= |st| && (forall j :: 0 <= j < k ==> Total(st, j) < len) && (k < |st| ==> Total(st, k) >= len)
    ensures AllInBounds(st[..k], from.Length, to.Length)
    ensures to[..] == Unpacked(from[..], old(to[..]), st[..k], k)
    ensures rc == 0 || rc == -1
    ensures rc == 0 <==> exists j :: 0 <= j <= |st| && Total(st, j) == len
    ensures rc == 0 ==> Total(st, k) == len
  {
    var count, i := 0, 0;
    ghost var s := to[..];
    while i < |st| && count < len
      invariant 0 <= i <= |st| && count == Total(st, i)
      invariant forall j :: 0 <= j < i ==> Total(st, j) < len
      invariant AllInBounds(st[..i], from.Length, to.Length)
      invariant to[..] == Unpacked(from[..], s, st[..i], i)
    {
      var d := st[i];
      UnpackedNext(from[..], s, st, i);
      if d.kind != Unknown {
        var n := GetArray(d.kind, from, d.bsoff, to, d.stoff, d.count);
        count := count + n;
      } else {
        SpanIsProduct(0, d.count);
      }
      i := i + 1;
    }
    k := i;
    forall j | k <= j <= |st| ensures Total(st, j) >= Total(st, k) { TotalGrows(st, k, j); }
    rc := if len != count then -1 else 0;
  }
}

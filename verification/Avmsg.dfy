/**
  Character-string messages: three longs, a count, a table of 16-bit string offsets and the
  null-terminated strings themselves.  The fixed part goes through the serializer of module Ldst.
 */
module Avmsg {
  import opened Options
  import opened Ldst
  import opened Bufchk

  const AV_NVALUE := 3
  const AV_ARGC := 12
  const AV_ARGVSTART := 14
  const AV_ARGVSZ := 2

  /** AVMSG_DESC: the fixed part, cells 0 to 2 and the count in cell 3. */
  const FIXED: seq<Desc> := [Desc(Long, 3, 0, 0), Desc(UShort, 1, 12, 3)]
  const NFIXED := 4

  /** What a C string can hold. */
  type Text = t: seq<byte> | 0 !in t witness []

  /** AV_AVMSGSZ(n): where the strings start in a message of n slots. */
  function TableEnd(n: nat): nat {
    AV_ARGVSTART + n * AV_ARGVSZ
  }

  /** The strings of the first n slots, each with its terminator. */
  function Strings(argv: seq<Option<Text>>, n: nat): (s: seq<byte>)
    requires n <= |argv|
  {
    if n == 0 then [] else
      Strings(argv, n - 1) + match argv[n - 1] case Some(t) => t + [0] case None => []
  }

  function MessageLength(argv: seq<Option<Text>>): nat {
    TableEnd(|argv|) + |Strings(argv, |argv|)|
  }

  /** Where slot i's string starts in the stream; 0 stands for a null pointer. */
  function Offset(argv: seq<Option<Text>>, i: nat): nat
    requires i < |argv|
  {
    if argv[i] == None then 0 else TableEnd(|argv|) + |Strings(argv, i)|
  }

  /** Slot i of the offset table holds the low 16 bits of x. */
  predicate SlotHolds(bytes: seq<byte>, i: nat, x: nat)
    requires TableEnd(i + 1) <= |bytes|
  {
    bytes[TableEnd(i)] == St16(x)[0] && bytes[TableEnd(i) + 1] == St16(x)[1]
  }

  /** The fixed part carries its cells, which count the slots of argv. */
  predicate FixedPart(bytes: seq<byte>, cells: seq<int>, argc: nat) {
    && |cells| == NFIXED && |bytes| >= AV_ARGVSTART && cells[AV_NVALUE] == argc < 0x1_0000
    && Carried(bytes, cells, FIXED[0]) && Carried(bytes, cells, FIXED[1])
  }

  /** Slot i's offset when the first n slots have been filled in. */
  function OffsetSoFar(argv: seq<Option<Text>>, n: nat, i: nat): nat
    requires i < |argv|
  {
    if i < n then Offset(argv, i) else 0
  }

  /** The first n slots are filled in and their strings end at sp; the other slots are zero. */
  predicate Partial(bytes: seq<byte>, sp: nat, cells: seq<int>, argv: seq<Option<Text>>, n: nat) {
    && n <= |argv|
    && sp == TableEnd(|argv|) + |Strings(argv, n)| <= |bytes|
    && FixedPart(bytes, cells, |argv|)
    && (forall i :: 0 <= i < |argv| ==> SlotHolds(bytes, i, OffsetSoFar(argv, n, i)))
    && bytes[TableEnd(|argv|)..sp] == Strings(argv, n)
  }

  /** `bytes` is the encoded message, to the last byte. */
  predicate Encodes(bytes: seq<byte>, cells: seq<int>, argv: seq<Option<Text>>) {
    Partial(bytes, |bytes|, cells, argv, |argv|)
  }

  // ---------------------------------------------------------------- what a receiver finds

  /** The received av_value[i]. */
  function Value(bytes: seq<byte>, i: nat): int
    requires i < AV_NVALUE && |bytes| >= AV_ARGVSTART
  {
    SpanIsProduct(4, i);
    Dec(Long, Element(bytes, 0, 4, i))
  }

  /** The received av_argc. */
  function Argc(bytes: seq<byte>): nat
    requires |bytes| >= AV_ARGVSTART
  {
    Ld16u(bytes[AV_ARGC], bytes[AV_ARGC + 1])
  }

  /** The received av_argv[i]: a position in the stream, or 0 for a null pointer. */
  function Pointer(bytes: seq<byte>, i: nat): nat
    requires TableEnd(i + 1) <= |bytes|
  {
    Ld16u(bytes[TableEnd(i)], bytes[TableEnd(i) + 1])
  }

  /** The bytes from p on start with the C string t. */
  predicate CString(bytes: seq<byte>, p: nat, t: Text) {
    p + |t| < |bytes| && bytes[p..p + |t|] == t && bytes[p + |t|] == 0
  }

  lemma {:induction false} StringsGrow(argv: seq<Option<Text>>, i: nat, j: nat)
    requires i <= j <= |argv|
    ensures Strings(argv, i) <= Strings(argv, j)
  {
    if i < j { StringsGrow(argv, i, j - 1); }
  }

  /** The count comes back, and a value comes back exactly when it fits 32 bits. */
  lemma FixedPartDecodes(bytes: seq<byte>, cells: seq<int>, argc: nat, i: nat)
    requires FixedPart(bytes, cells, argc) && i < AV_NVALUE
    ensures Argc(bytes) == argc
    ensures Value(bytes, i) == cells[i] <==> Fits(Long, cells[i])
  {
    ElementCarried(bytes, cells, FIXED[1], 0);
    assert Element(bytes, AV_ARGC, 2, 0) == [bytes[AV_ARGC], bytes[AV_ARGC + 1]] == St16(argc);
    Halves(argc);
    ElementCarried(bytes, cells, FIXED[0], i);
    DecEnc(Long, cells[i]);
  }

  /** Slot i's string lies where its untruncated offset says, inside the message. */
  lemma StringAtOffset(bytes: seq<byte>, cells: seq<int>, argv: seq<Option<Text>>, i: nat)
    requires Encodes(bytes, cells, argv) && i < |argv| && argv[i].Some?
    ensures CString(bytes, Offset(argv, i), argv[i].value)
  {
    var t, at := argv[i].value, |Strings(argv, i)|;
    StringsGrow(argv, i + 1, |argv|);
    var all := Strings(argv, |argv|);
    assert all[..at + |t| + 1] == Strings(argv, i + 1);
    assert all[at..at + |t|] == t && all[at + |t|] == 0;
    var p := Offset(argv, i);
    assert bytes[TableEnd(|argv|)..] == all;
    assert bytes[p..p + |t|] == bytes[TableEnd(|argv|)..][at..at + |t|];
    assert bytes[p + |t|] == bytes[TableEnd(|argv|)..][at + |t|];
  }

  /** The strings of different slots occupy disjoint bytes, after the offset table and in slot order. */
  lemma StringsDisjoint(argv: seq<Option<Text>>, i: nat, j: nat)
    requires i < j < |argv| && argv[i].Some? && argv[j].Some?
    ensures TableEnd(|argv|) <= Offset(argv, i)
    ensures Offset(argv, i) + |argv[i].value| + 1 <= Offset(argv, j)
    ensures Offset(argv, j) + |argv[j].value| + 1 <= MessageLength(argv)
  {
    StringsGrow(argv, i + 1, j);
    StringsGrow(argv, j + 1, |argv|);
  }

  /** Every string starts within the first 64 kilobytes. */
  predicate OffsetsFit(argv: seq<Option<Text>>) {
    forall i :: 0 <= i < |argv| ==> Offset(argv, i) < 0x1_0000
  }

  /** The receiver's pointers are the sender's offsets exactly when all of those fit their 16 bits. */
  lemma DecodesIffOffsetsFit(bytes: seq<byte>, cells: seq<int>, argv: seq<Option<Text>>)
    requires Encodes(bytes, cells, argv)
    ensures (forall i :: 0 <= i < |argv| ==> Pointer(bytes, i) == Offset(argv, i)) <==> OffsetsFit(argv)
  {
    forall i | 0 <= i < |argv|
      ensures Pointer(bytes, i) == Offset(argv, i) <==> Offset(argv, i) < 0x1_0000
    {
      assert SlotHolds(bytes, i, OffsetSoFar(argv, |argv|, i));
      Halves(Offset(argv, i));
      SignedFits(Offset(argv, i));
    }
  }

  /** In particular, messages of at most 65535 bytes come back slot by slot. */
  lemma ShortMessagesDecode(bytes: seq<byte>, cells: seq<int>, argv: seq<Option<Text>>, i: nat)
    requires Encodes(bytes, cells, argv) && |bytes| <= 65535 && i < |argv|
    ensures match argv[i]
            case None => Pointer(bytes, i) == 0
            case Some(t) => Pointer(bytes, i) != 0 && CString(bytes, Pointer(bytes, i), t)
  {
    forall k | 0 <= k < |argv| ensures Offset(argv, k) < 0x1_0000 {
      StringsGrow(argv, k, |argv|);
    }
    DecodesIffOffsetsFit(bytes, cells, argv);
    if argv[i].Some? { StringAtOffset(bytes, cells, argv, i); }
  }

  // ---------------------------------------------------------------- sending

  /** Nothing in the first 14 bytes has changed, so the fixed part is still there. */
  lemma FixedPartKept(bytes: seq<byte>, after: seq<byte>, cells: seq<int>, argc: nat)
    requires FixedPart(bytes, cells, argc) && |after| >= AV_ARGVSTART
    requires bytes[..AV_ARGVSTART] == after[..AV_ARGVSTART]
    ensures FixedPart(after, cells, argc)
  {
    forall k, i, b | 0 <= k < 2 && 0 <= i < FIXED[k].count && 0 <= b < Width(FIXED[k].kind)
      ensures ByteCarried(after, cells, FIXED[k], i, b)
    {
      assert ByteCarried(bytes, cells, FIXED[k], i, b);
      SpanRoom(Width(FIXED[k].kind), i, FIXED[k].count);
      SpanIsProduct(Width(FIXED[k].kind), FIXED[k].count);
      var p := FIXED[k].bsoff + Span(Width(FIXED[k].kind), i) + b;
      assert bytes[p] == bytes[..AV_ARGVSTART][p] == after[p];
    }
  }

  /** tet_st2bs() of the fixed part. */
  method PutFixed(cells: array<int>, to: array<byte>, ghost argc: nat) returns (n: nat)
    requires cells.Length == NFIXED && cells[AV_NVALUE] == argc < 0x1_0000 && to.Length >= AV_ARGVSTART
    modifies to
    ensures n == AV_ARGVSTART && FixedPart(to[..], cells[..], argc)
    ensures forall p :: AV_ARGVSTART <= p < to.Length ==> to[p] == old(to[p])
  {
    ghost var before := to[..];
    SpanIsProduct(4, 3);
    SpanIsProduct(2, 1);
    n := St2bs(cells, to, FIXED);
    PackedCarriesAll(cells[..], before, FIXED);
    assert n == Total(FIXED, 1) + 2 == 14;
    forall p | AV_ARGVSTART <= p < to.Length ensures to[p] == before[p] {
      assert forall i :: 0 <= i < 2 ==> Outside(FIXED[i], p);
      PackedOutside(cells[..], before, FIXED, 2, p);
      assert to[p] == to[..][p];
    }
  }

  /** tet_st2bs() of one offset, by OFFSET_DESC at `at`. */
  method PutOffset(offset: nat, to: array<byte>, at: nat) returns (n: nat)
    requires at + AV_ARGVSZ <= to.Length
    modifies to
    ensures n == AV_ARGVSZ
    ensures to[..] == old(to[..])[at := St16(offset)[0]][at + 1 := St16(offset)[1]]
  {
    var cell, st := new int[1](_ => offset), [Desc(UShort, 1, at, 0)];
    ghost var before := to[..];
    SpanIsProduct(2, 1);
    n := St2bs(cell, to, st);
    assert n == Total(st, 0) + 2;
    assert to[..] == PackedOne(cell[..], Packed(cell[..], before, st, 0), st[0]);
    forall p | 0 <= p < |before|
      ensures to[..][p] == before[at := St16(offset)[0]][at + 1 := St16(offset)[1]][p]
    {
      var blocks := Encoded(UShort, cell[..], 0, 1);
      assert to[..] == Overwrite(Stored(before, at, blocks, 2, 0), at, blocks[0]);
      OverwriteAt(before, at, blocks[0], p);
    }
  }

  /** The inner loop: one string and its terminator. */
  method PutString(t: Text, to: array<byte>, start: nat) returns (sp: nat)
    requires start + |t| < to.Length
    modifies to
    ensures sp == start + |t| + 1
    ensures to[..] == old(to[..start]) + t + [0] + old(to[sp..])
  {
    ghost var before := to[..];
    sp := start;
    for p := 0 to |t|
      invariant sp == start + p
      invariant forall q :: start <= q < sp ==> to[q] == t[q - start]
      invariant forall q :: 0 <= q < to.Length && !(start <= q < sp) ==> to[q] == before[q]
    {
      to[sp] := t[p];
      sp := sp + 1;
    }
    to[sp] := 0;
    sp := sp + 1;
    StringWritten(before, to[..], start, t);
  }

  lemma StringWritten(before: seq<byte>, after: seq<byte>, start: nat, t: Text)
    requires |after| == |before| && start + |t| < |after| && after[start + |t|] == 0
    requires forall q :: start <= q < start + |t| ==> after[q] == t[q - start]
    requires forall q :: 0 <= q < |after| && !(start <= q <= start + |t|) ==> after[q] == before[q]
    ensures after == before[..start] + t + [0] + before[start + |t| + 1..]
  {
  }

  /** One round of the second loop. */
  lemma PartialMore(b: seq<byte>, after: seq<byte>, sp: nat, cells: seq<int>, argv: seq<Option<Text>>, n: nat)
    requires Partial(b, sp, cells, argv, n) && n < |argv| && argv[n].Some?
    requires var t := argv[n].value;
             && sp + |t| < |b| && TableEnd(n) + 1 < sp
             && after == b[TableEnd(n) := St16(sp)[0]][TableEnd(n) + 1 := St16(sp)[1]][..sp]
                         + t + [0] + b[sp + |t| + 1..]
    ensures Partial(after, sp + |argv[n].value| + 1, cells, argv, n + 1)
  {
    var end, sp' := TableEnd(|argv|), sp + |argv[n].value| + 1;
    assert b[..AV_ARGVSTART] == after[..AV_ARGVSTART];
    FixedPartKept(b, after, cells, |argv|);
    var m := n + 1;
    forall i | 0 <= i < |argv| ensures SlotHolds(after, i, OffsetSoFar(argv, m, i)) {
      assert SlotHolds(b, i, OffsetSoFar(argv, n, i));
    }
    assert after[end..sp'] == b[end..sp] + argv[n].value + [0];
  }

  /** A null pointer keeps the zero already in its slot. */
  lemma PartialNull(b: seq<byte>, sp: nat, cells: seq<int>, argv: seq<Option<Text>>, n: nat)
    requires Partial(b, sp, cells, argv, n) && n < |argv| && argv[n] == None
    ensures Partial(b, sp, cells, argv, n + 1)
  {
    var m := n + 1;
    forall i | 0 <= i < |argv| ensures SlotHolds(b, i, OffsetSoFar(argv, m, i)) {
      assert SlotHolds(b, i, OffsetSoFar(argv, n, i));
    }
  }

  /** tet_avmsgbslen() */
  method AvmsgBsLen(argv: seq<Option<Text>>) returns (len: nat)
    ensures len == MessageLength(argv)
  {
    len := TableEnd(|argv|);
    for n := 0 to |argv|
      invariant len == TableEnd(|argv|) + |Strings(argv, n)|
    {
      if argv[n].Some? { len := len + |argv[n].value| + 1; }
    }
  }

  /** The first loop of tet_avmsg2bs(): room for the offset table. */
  method PutZeros(cells: array<int>, argc: nat, to: array<byte>) returns (sp: nat)
    requires TableEnd(argc) <= to.Length && FixedPart(to[..], cells[..], argc)
    modifies to
    ensures sp == TableEnd(argc) && FixedPart(to[..], cells[..], argc)
    ensures forall i :: 0 <= i < argc ==> SlotHolds(to[..], i, 0)
    ensures forall p :: sp <= p < to.Length ==> to[p] == old(to[p])
  {
    sp := AV_ARGVSTART;
    for n := 0 to argc
      invariant sp == TableEnd(n)
      invariant to[..AV_ARGVSTART] == old(to[..AV_ARGVSTART])
      invariant forall p :: sp <= p < to.Length ==> to[p] == old(to[p])
      invariant forall i :: 0 <= i < n ==> SlotHolds(to[..], i, 0)
    {
      ghost var before := to[..];
      var m := PutOffset(0, to, TableEnd(n));
      sp := sp + m;
      forall i | 0 <= i < n + 1 ensures SlotHolds(to[..], i, 0) {
        if i < n { assert SlotHolds(before, i, 0); }
      }
    }
    FixedPartKept(old(to[..]), to[..], cells[..], argc);
  }

  /** One string of the second loop: its offset and its bytes. */
  method PutSlot(ghost cells: seq<int>, argv: seq<Option<Text>>, n: nat, to: array<byte>, start: nat)
    returns (sp: nat)
    requires Partial(to[..], start, cells, argv, n) && n < |argv| && argv[n].Some?
    requires start + |argv[n].value| < to.Length
    modifies to
    ensures Partial(to[..], sp, cells, argv, n + 1)
    ensures forall p :: sp <= p < to.Length ==> to[p] == old(to[p])
  {
    ghost var b := to[..];
    var m := PutOffset(start, to, TableEnd(n));
    ghost var mid := to[..];
    sp := PutString(argv[n].value, to, start);
    assert mid[sp..] == b[sp..];
    PartialMore(b, to[..], start, cells, argv, n);
    forall p | sp <= p < to.Length ensures to[p] == b[p] {
      assert to[p] == to[..][p] == mid[p];
    }
  }

  /** tet_avmsg2bs(): returns the length tet_avmsgbslen() predicts and writes only that many bytes. */
  method Avmsg2Bs(cells: array<int>, argv: seq<Option<Text>>, to: array<byte>) returns (len: nat)
    requires cells.Length == NFIXED && cells[AV_NVALUE] == |argv| < 0x1_0000
    requires to.Length >= MessageLength(argv)
    modifies to
    ensures len == MessageLength(argv)
    ensures Encodes(to[..len], cells[..], argv)
    ensures forall p :: len <= p < to.Length ==> to[p] == old(to[p])
  {
    var sp := PutFixed(cells, to, |argv|);
    sp := PutZeros(cells, |argv|, to);
    ghost var c := cells[..];
    for n := 0 to |argv|
      invariant Partial(to[..], sp, c, argv, n)
      invariant forall p :: MessageLength(argv) <= p < to.Length ==> to[p] == old(to[p])
    {
      StringsGrow(argv, n + 1, |argv|);
      if argv[n].Some? {
        sp := PutSlot(c, argv, n, to, sp);
      } else {
        PartialNull(to[..], sp, c, argv, n);
      }
    }
    len := sp;
    PartialCut(to[..], len, c, argv);
  }

  lemma PartialCut(b: seq<byte>, len: nat, cells: seq<int>, argv: seq<Option<Text>>)
    requires Partial(b, len, cells, argv, |argv|)
    ensures Encodes(b[..len], cells, argv)
  {
    FixedPartKept(b, b[..len], cells, |argv|);
    forall i | 0 <= i < |argv| ensures SlotHolds(b[..len], i, OffsetSoFar(argv, |argv|, i)) {
      assert SlotHolds(b, i, OffsetSoFar(argv, |argv|, i));
    }
  }

  // ---------------------------------------------------------------- receiving

  /** avmsgsz(n): cells of a received message of n slots. */
  function AvmsgSz(n: int): int {
    NFIXED + n
  }

  /** The structure `s` holds what the stream says. */
  ghost predicate Received(s: seq<int>, bytes: seq<byte>)
    requires |bytes| >= AV_ARGVSTART
  {
    && |bytes| >= TableEnd(Argc(bytes)) && |s| >= AvmsgSz(Argc(bytes))
    && (forall i :: 0 <= i < AV_NVALUE ==> s[i] == Value(bytes, i))
    && s[AV_NVALUE] == Argc(bytes)
    && forall i :: 0 <= i < Argc(bytes) ==> s[NFIXED + i] == Pointer(bytes, i)
  }

  /** Slot i of the structure s is the pointer or null pointer of argv[i]. */
  predicate SlotRestored(s: seq<int>, stream: seq<byte>, argv: seq<Option<Text>>, i: nat)
    requires i < |argv| && NFIXED + i < |s|
  {
    match argv[i]
    case None => s[NFIXED + i] == 0
    case Some(t) => s[NFIXED + i] > 0 && CString(stream, s[NFIXED + i], t)
  }

  /** What a receiver reads depends on the message alone, not on what follows it in the stream. */
  lemma ReadsMessage(stream: seq<byte>, len: nat, i: nat)
    requires AV_ARGVSTART <= len <= |stream|
    ensures Argc(stream[..len]) == Argc(stream)
    ensures i < AV_NVALUE ==> Value(stream[..len], i) == Value(stream, i)
    ensures TableEnd(i + 1) <= len ==> Pointer(stream[..len], i) == Pointer(stream, i)
  {
    if i < AV_NVALUE {
      SpanIsProduct(4, i);
      assert Element(stream, 0, 4, i) == Element(stream[..len], 0, 4, i);
    }
  }

  lemma CStringInStream(stream: seq<byte>, len: nat, p: nat, t: Text)
    requires len <= |stream| && CString(stream[..len], p, t)
    ensures CString(stream, p, t)
  {
    assert stream[p..p + |t|] == stream[..len][p..p + |t|];
  }

  /**
    The receiver undoes the sender: a structure received from a stream that starts with an encoded
    message of at most 65535 bytes has the message's values, and every string and every null pointer.
   */
  lemma MessageRoundTrip(stream: seq<byte>, len: nat, cells: seq<int>, argv: seq<Option<Text>>, s: seq<int>)
    requires len <= |stream| && len <= 65535 && Encodes(stream[..len], cells, argv) && Received(s, stream)
    requires forall i :: 0 <= i < AV_NVALUE ==> Fits(Long, cells[i])
    ensures |s| >= AvmsgSz(|argv|) && s[AV_NVALUE] == |argv|
    ensures forall i :: 0 <= i < AV_NVALUE ==> s[i] == cells[i]
    ensures forall i :: 0 <= i < |argv| ==> SlotRestored(s, stream, argv, i)
  {
    var message := stream[..len];
    FixedPartDecodes(message, cells, |argv|, 0);
    ReadsMessage(stream, len, 0);
    forall i | 0 <= i < AV_NVALUE ensures s[i] == cells[i] {
      FixedPartDecodes(message, cells, |argv|, i);
      ReadsMessage(stream, len, i);
    }
    forall i | 0 <= i < |argv| ensures SlotRestored(s, stream, argv, i) {
      SlotRoundTrip(stream, len, cells, argv, s, i);
    }
  }

  lemma SlotRoundTrip(stream: seq<byte>, len: nat, cells: seq<int>, argv: seq<Option<Text>>, s: seq<int>, i: nat)
    requires len <= |stream| && len <= 65535 && Encodes(stream[..len], cells, argv) && i < |argv|
    requires |s| >= AvmsgSz(|argv|) && s[NFIXED + i] == Pointer(stream, i)
    ensures SlotRestored(s, stream, argv, i)
  {
    ShortMessagesDecode(stream[..len], cells, argv, i);
    ReadsMessage(stream, len, i);
    if argv[i].Some? { CStringInStream(stream, len, s[NFIXED + i], argv[i].value); }
  }

  /** bs2avmargv() */
  method Bs2Avmargv(from: array<byte>, to: array<int>, nargv: int, length: int) returns (rc: int)
    requires length <= nargv * AV_ARGVSZ && AvmsgSz(nargv) <= to.Length
    requires AV_ARGVSTART + length + length % 2 <= from.Length
    modifies to
    ensures rc == 0 || rc == -1
    ensures rc == 0 <==> nargv >= 0 && length == nargv * AV_ARGVSZ
    ensures rc == 0 ==> forall i :: 0 <= i < nargv ==> to[NFIXED + i] == Pointer(from[..], i)
    ensures forall i :: 0 <= i < NFIXED && i < to.Length ==> to[i] == old(to[i])
  {
    var n, len := 0, length;
    var offset := new int[1];
    while n < nargv && len > 0
      invariant 0 <= n && (n == 0 || TableEnd(n) <= from.Length) && (n <= nargv || n == 0)
      invariant len == length - n * AV_ARGVSZ
      invariant length >= 0 ==> len >= 0
      invariant forall i :: 0 <= i < n ==> to[NFIXED + i] == Pointer(from[..], i)
      invariant forall i :: 0 <= i < NFIXED && i < to.Length ==> to[i] == old(to[i])
    {
      var st := [Desc(UShort, 1, TableEnd(n), 0)];
      SpanIsProduct(2, 1);
      ghost var before := offset[..];
      ghost var k;
      var r;
      r, k := Bs2st(from, offset, st, if len < AV_ARGVSZ then len else AV_ARGVSZ);
      assert Total(st, 0) == 0 && Total(st, 1) == 2;
      if r < 0 { break; }
      assert st[..1] == st;
      UnpackedCell(from[..], before, st, 1, 0);
      assert offset[..][0] == offset[0] == Pointer(from[..], n);
      to[NFIXED + n] := if offset[0] != 0 then offset[0] else 0;
      len := len - AV_ARGVSZ;
      n := n + 1;
    }
    rc := if len == 0 && n == nargv then 0 else -1;
  }

  /** The fixed part is read in two pieces, each as a whole once the stream goes into it. */
  predicate Readable(nbytes: nat, len: int) {
    (len > 0 ==> nbytes >= AV_ARGC) && (len > AV_ARGC ==> nbytes >= AV_ARGVSTART)
  }

  /** tet_bs2st() of the fixed part. */
  method GetFixed(from: array<byte>, to: array<int>, len: int) returns (rc: int)
    requires Readable(from.Length, len) && to.Length >= NFIXED && len <= AV_ARGVSTART
    modifies to
    ensures len == AV_ARGVSTART ==> rc == 0 && to[AV_NVALUE] == Argc(from[..])
    ensures len == AV_ARGVSTART ==> forall i :: 0 <= i < AV_NVALUE ==> to[i] == Value(from[..], i)
  {
    SpanIsProduct(4, 3);
    SpanIsProduct(2, 1);
    ghost var s, bytes, k := to[..], from[..], 0;
    assert Total(FIXED, 1) == 12;
    rc, k := Bs2st(from, to, FIXED, len);
    if len == AV_ARGVSTART {
      assert Total(FIXED, 1) == 12 && Total(FIXED, 2) == 14;
      assert rc == 0 by { assert exists j :: 0 <= j <= |FIXED| && Total(FIXED, j) == len; }
      assert k == 2 && FIXED[..2] == FIXED;
      FixedUnpacked(bytes, s);
      forall i | 0 <= i < NFIXED ensures to[i] == Unpacked(bytes, s, FIXED, 2)[i] { }
    }
  }

  lemma FixedUnpacked(bytes: seq<byte>, s: seq<int>)
    requires |bytes| >= AV_ARGVSTART && |s| >= NFIXED
    ensures AllInBounds(FIXED, |bytes|, |s|)
    ensures forall i :: 0 <= i < AV_NVALUE ==> Unpacked(bytes, s, FIXED, 2)[i] == Value(bytes, i)
    ensures Unpacked(bytes, s, FIXED, 2)[AV_NVALUE] == Argc(bytes)
  {
    SpanIsProduct(4, 3);
    SpanIsProduct(2, 1);
    forall i | 0 <= i < NFIXED
      ensures Unpacked(bytes, s, FIXED, 2)[i] == if i < AV_NVALUE then Value(bytes, i) else Argc(bytes)
    {
      UnpackedCell(bytes, s, FIXED, 2, i);
      UnpackedCell(bytes, s, FIXED, 1, i);
    }
  }

  /** The stream has a fixed part, and the offset table that it announces. */
  predicate Whole(bytes: seq<byte>, len: int) {
    AV_ARGVSTART <= len <= |bytes| && TableEnd(Argc(bytes)) <= len
  }

  /** The buffer already has this much room, or is granted it. */
  predicate HasRoom(length: int, wanted: nat, growth: Growth) {
    length >= wanted || growth.granted
  }

  /** How long the structure is once it has room for a message of one string. */
  function RoomForOne(length: nat): nat {
    if length >= AvmsgSz(1) then length else AvmsgSz(1)
  }

  /**
    tet_bs2avmsg(), given what happens to its two requests for memory.  It succeeds exactly when the stream
    is long enough for the offset table it announces, and the structure has or is granted room for one
    string and, if the stream announces more, for as many.  The last short of an odd-sized stream is read whole.
   */
  method Bs2Avmsg(from: array<byte>, fromlen: int, to: Buffer<int>, first: Growth, second: Growth) returns (rc: int)
    requires to.Valid() && Readable(from.Length, fromlen) && fromlen + fromlen % 2 <= from.Length
    modifies to, to.bp
    ensures to.Valid() && (to.bp == old(to.bp) || to.bp == null || fresh(to.bp))
    ensures rc != -1 <==> && Whole(from[..], fromlen) && HasRoom(old(to.len), AvmsgSz(1), first)
                          && HasRoom(RoomForOne(old(to.len)), AvmsgSz(Argc(from[..])), second)
    ensures rc != -1 ==> rc == AvmsgSz(Argc(from[..])) && Received(to.Contents(), from[..])
  {
    rc := to.Check(AvmsgSz(1), first.granted, first.back);
    if rc < 0 { return -1; }
    rc := GetFixed(from, to.bp, if fromlen < AV_ARGVSTART then fromlen else AV_ARGVSTART);
    if rc < 0 { return -1; }
    if to.bp[AV_NVALUE] > 1 {
      var c := to.Check(AvmsgSz(to.bp[AV_NVALUE]), second.granted, second.back);
      if c < 0 { return -1; }
    }
    var argc := to.bp[AV_NVALUE];
    var room := fromlen - AV_ARGVSTART;
    rc := Bs2Avmargv(from, to.bp, argc, if argc * AV_ARGVSZ < room then argc * AV_ARGVSZ else room);
    if rc < 0 { return -1; }
    rc := AvmsgSz(argc);
  }
}

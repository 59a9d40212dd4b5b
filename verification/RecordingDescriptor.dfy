/** Encoding and decoding of recording descriptors (archive/codecs/RecordingDescriptor.go). */
module RecordingDescriptor {
  import opened Bits
  import opened Sbe

  type int32 = v: int | -0x8000_0000 <= v < 0x8000_0000
  type int64 = v: int | -0x8000_0000_0000_0000 <= v < 0x8000_0000_0000_0000

  const MIN_INT32: int := -0x8000_0000
  const MIN_INT64: int := -0x8000_0000_0000_0000

  datatype Longs = Longs(controlSessionId: int64, correlationId: int64, recordingId: int64, startTimestamp: int64,
                         stopTimestamp: int64, startPosition: int64, stopPosition: int64)

  datatype Ints = Ints(initialTermId: int32, segmentFileLength: int32, termBufferLength: int32, mtuLength: int32,
                       sessionId: int32, streamId: int32)

  datatype Descriptor = Descriptor(longs: Longs, ints: Ints, strippedChannel: seq<byte>, originalChannel: seq<byte>,
                                   sourceIdentity: seq<byte>)

  datatype Result = Ok(d: Descriptor, rest: seq<byte>) | Err

  // ---------------------------------------------------------------------------------------------
  // The wire format
  // ---------------------------------------------------------------------------------------------

  function LongValues(l: Longs): (vs: seq<int>) {
    [l.controlSessionId, l.correlationId, l.recordingId, l.startTimestamp, l.stopTimestamp, l.startPosition,
     l.stopPosition]
  }

  function IntValues(i: Ints): (vs: seq<int>) {
    [i.initialTermId, i.segmentFileLength, i.termBufferLength, i.mtuLength, i.sessionId, i.streamId]
  }

  /** Where the i-th of a row of integers of one width starts. */
  function Offset(width: nat, i: nat): (n: nat)
    ensures width == 8 ==> n == 8 * i
    ensures width == 4 ==> n == 4 * i
  {
    if i == 0 then 0 else Offset(width, i - 1) + width
  }

  /** Integers of one width, one after the other. */
  function Packed(width: nat, vs: seq<int>): (bs: seq<byte>)
    ensures |bs| == Offset(width, |vs|)
  {
    if vs == [] then [] else Packed(width, vs[..|vs| - 1]) + Bytes(vs[|vs| - 1], width)
  }

  /** The fixed block. */
  function Block(d: Descriptor): (bs: seq<byte>)
    ensures |bs| == BLOCK_LENGTH
  {
    Packed(8, LongValues(d.longs)) + Packed(4, IntValues(d.ints))
  }

  /** A variable-length field; the length is truncated to 32 bits. */
  function Var(s: seq<byte>): (bs: seq<byte>) {
    Bytes(|s|, 4) + s
  }

  function Tail(d: Descriptor): (bs: seq<byte>) {
    Var(d.strippedChannel) + Var(d.originalChannel) + Var(d.sourceIdentity)
  }

  /** The null value of a field is one below its minimum. */
  predicate InRange(d: Descriptor) {
    && (forall v | v in LongValues(d.longs) :: v > MIN_INT64)
    && (forall v | v in IntValues(d.ints) :: v > MIN_INT32)
  }

  predicate ShortFields(d: Descriptor) {
    |d.strippedChannel| < TWO_32 && |d.originalChannel| < TWO_32 && |d.sourceIdentity| < TWO_32
  }

  lemma SliceFits(bs: seq<byte>, a: nat, n: nat)
    requires a + n <= |bs| && (n == 4 || n == 8)
    ensures n == 8 ==> MIN_INT64 <= Signed(bs[a..a + n]) < -MIN_INT64
    ensures n == 4 ==> MIN_INT32 <= Signed(bs[a..a + n]) < -MIN_INT32
  {
    BytesOfSigned(bs[a..a + n]);
    assert Pow256(4) == 0x1_0000_0000;
    assert Pow256(6) == 0x1_0000_0000_0000 && Pow256(8) == 0x1_0000_0000_0000_0000;
  }

  function Long(bs: seq<byte>, a: nat): (v: int64)
    requires a + 8 <= |bs|
  {
    SliceFits(bs, a, 8);
    Signed(bs[a..a + 8])
  }

  function Int(bs: seq<byte>, a: nat): (v: int32)
    requires a + 4 <= |bs|
  {
    SliceFits(bs, a, 4);
    Signed(bs[a..a + 4])
  }

  /** The fields at the offsets the schema gives them. */
  function LongsAt(bs: seq<byte>): (l: Longs)
    requires |bs| >= 56
  {
    Longs(Long(bs, 0), Long(bs, 8), Long(bs, 16), Long(bs, 24), Long(bs, 32), Long(bs, 40), Long(bs, 48))
  }

  function IntsAt(bs: seq<byte>): (i: Ints)
    requires |bs| >= 24
  {
    Ints(Int(bs, 0), Int(bs, 4), Int(bs, 8), Int(bs, 12), Int(bs, 16), Int(bs, 20))
  }

  datatype Field = NoField | Field(value: seq<byte>, rest: seq<byte>)

  function ReadVar(bs: seq<byte>): (f: Field) {
    if |bs| < 4 then NoField
    else
      var n := Unsigned(bs[..4]);
      if |bs| - 4 < n then NoField else Field(bs[4..4 + n], bs[4 + n..])
  }

  /** How much a later version's longer block adds. */
  function Extra(actingVersion: nat, blockLength: nat): (n: nat) {
    if actingVersion > SCHEMA_VERSION && blockLength > BLOCK_LENGTH then blockLength - BLOCK_LENGTH else 0
  }

  /** The variable part, after the fixed block has been read. */
  function DecodedTail(l: Longs, i: Ints, bs: seq<byte>, doRangeCheck: bool): (r: Result) {
    var a := ReadVar(bs);
    if a.NoField? then Err
    else
      var b := ReadVar(a.rest);
      if b.NoField? then Err
      else
        var c := ReadVar(b.rest);
        if c.NoField? then Err
        else
          var d := Descriptor(l, i, a.value, b.value, c.value);
          if doRangeCheck && !InRange(d) then Err else Ok(d, c.rest)
  }

  function Decoded(bs: seq<byte>, actingVersion: nat, blockLength: nat, doRangeCheck: bool): (r: Result) {
    if |bs| < BLOCK_LENGTH then Err
    else DecodedTail(LongsAt(bs), IntsAt(bs[56..]), Skip(bs[BLOCK_LENGTH..], Extra(actingVersion, blockLength)),
                     doRangeCheck)
  }

  // ---------------------------------------------------------------------------------------------
  // The codec
  // ---------------------------------------------------------------------------------------------

  lemma PackedOneMore(width: nat, vs: seq<int>, k: nat)
    requires k < |vs|
    ensures Packed(width, vs[..k + 1]) == Packed(width, vs[..k]) + Bytes(vs[k], width)
  {
    assert vs[..k + 1][..k] == vs[..k];
  }

  /** One integer further in a stream of them. */
  method WriteNextLong(m: Marshaller, w: Writer, ghost before: seq<byte>, ghost vs: seq<int>, ghost k: nat, v: int)
    requires m.b8.Length == 8 && k < |vs| && v == vs[k] && w.bytes == before + Packed(8, vs[..k])
    modifies w, m.b8
    ensures w.bytes == before + Packed(8, vs[..k + 1])
  {
    m.WriteInt64(w, v);
    PackedOneMore(8, vs, k);
  }

  method WriteNextInt(m: Marshaller, w: Writer, ghost before: seq<byte>, ghost vs: seq<int>, ghost k: nat, v: int)
    requires m.b8.Length == 8 && k < |vs| && v == vs[k] && w.bytes == before + Packed(4, vs[..k])
    modifies w, m.b8
    ensures w.bytes == before + Packed(4, vs[..k + 1])
  {
    m.WriteInt32(w, v);
    PackedOneMore(4, vs, k);
  }

  method WriteLongs(m: Marshaller, w: Writer, l: Longs)
    requires m.b8.Length == 8
    modifies w, m.b8
    ensures w.bytes == old(w.bytes) + Packed(8, LongValues(l))
  {
    hide Packed;
    ghost var vs, before := LongValues(l), w.bytes;
    assert before + Packed(8, []) == before && vs[..0] == [];
    WriteNextLong(m, w, before, vs, 0, l.controlSessionId);
    WriteNextLong(m, w, before, vs, 1, l.correlationId);
    WriteNextLong(m, w, before, vs, 2, l.recordingId);
    WriteNextLong(m, w, before, vs, 3, l.startTimestamp);
    WriteNextLong(m, w, before, vs, 4, l.stopTimestamp);
    WriteNextLong(m, w, before, vs, 5, l.startPosition);
    WriteNextLong(m, w, before, vs, 6, l.stopPosition);
    assert vs[..7] == vs;
  }

  method WriteInts(m: Marshaller, w: Writer, i: Ints)
    requires m.b8.Length == 8
    modifies w, m.b8
    ensures w.bytes == old(w.bytes) + Packed(4, IntValues(i))
  {
    hide Packed;
    ghost var vs, before := IntValues(i), w.bytes;
    assert before + Packed(4, []) == before && vs[..0] == [];
    WriteNextInt(m, w, before, vs, 0, i.initialTermId);
    WriteNextInt(m, w, before, vs, 1, i.segmentFileLength);
    WriteNextInt(m, w, before, vs, 2, i.termBufferLength);
    WriteNextInt(m, w, before, vs, 3, i.mtuLength);
    WriteNextInt(m, w, before, vs, 4, i.sessionId);
    WriteNextInt(m, w, before, vs, 5, i.streamId);
    assert vs[..6] == vs;
  }

  method WriteVar(m: Marshaller, w: Writer, s: seq<byte>)
    requires m.b8.Length == 8
    modifies w, m.b8
    ensures w.bytes == old(w.bytes) + Var(s)
  {
    m.WriteInt32(w, |s|);  // the low 32 bits, as uint32 takes them
    w.Write(s);
  }

  /** `Encode`. */
  method Encode(m: Marshaller, w: Writer, d: Descriptor, doRangeCheck: bool) returns (ok: bool)
    requires m.b8.Length == 8
    modifies w, m.b8
    ensures ok <==> !doRangeCheck || InRange(d)
    ensures w.bytes == old(w.bytes) + (if ok then Block(d) + Tail(d) else [])
  {
    hide Packed, Var;
    if doRangeCheck && !InRange(d) {
      return false;
    }
    WriteLongs(m, w, d.longs);
    WriteInts(m, w, d.ints);
    WriteVar(m, w, d.strippedChannel);
    WriteVar(m, w, d.originalChannel);
    WriteVar(m, w, d.sourceIdentity);
    ok := true;
  }

  lemma SliceStep(bs: seq<byte>, a: nat, n: nat)
    requires a + n <= |bs|
    ensures bs[a..][..n] == bs[a..a + n] && bs[a..][n..] == bs[a + n..]
  {
  }

  method ReadNextLong(m: Marshaller, r: Reader, ghost bs: seq<byte>, ghost a: nat, was: int64)
    returns (ok: bool, v: int64)
    requires m.b8.Length == 8 && a <= |bs| && r.bytes == bs[a..]
    modifies r, m.b8
    ensures ok <==> a + 8 <= |bs|
    ensures ok ==> v == Long(bs, a) && r.bytes == bs[a + 8..]
  {
    v := was;
    var x;
    ok, x := m.ReadInt64(r);
    if ok {
      SliceStep(bs, a, 8);
      SliceFits(bs, a, 8);
      v := x;
    }
  }

  method ReadNextInt(m: Marshaller, r: Reader, ghost bs: seq<byte>, ghost a: nat, was: int32)
    returns (ok: bool, v: int32)
    requires m.b8.Length == 8 && a <= |bs| && r.bytes == bs[a..]
    modifies r, m.b8
    ensures ok <==> a + 4 <= |bs|
    ensures ok ==> v == Int(bs, a) && r.bytes == bs[a + 4..]
  {
    v := was;
    var x;
    ok, x := m.ReadInt32(r);
    if ok {
      SliceStep(bs, a, 4);
      SliceFits(bs, a, 4);
      v := x;
    }
  }

  method ReadLongs(m: Marshaller, r: Reader, was: Longs) returns (ok: bool, l: Longs)
    requires m.b8.Length == 8
    modifies r, m.b8
    ensures ok <==> |old(r.bytes)| >= 56
    ensures ok ==> l == LongsAt(old(r.bytes)) && r.bytes == old(r.bytes)[56..]
  {
    hide Long;
    ghost var bs := r.bytes;
    l := was;
    var v;
    ok, v := ReadNextLong(m, r, bs, 0, l.controlSessionId);
    if !ok { return; }
    l := l.(controlSessionId := v);
    ok, v := ReadNextLong(m, r, bs, 8, l.correlationId);
    if !ok { return; }
    l := l.(correlationId := v);
    ok, v := ReadNextLong(m, r, bs, 16, l.recordingId);
    if !ok { return; }
    l := l.(recordingId := v);
    ok, v := ReadNextLong(m, r, bs, 24, l.startTimestamp);
    if !ok { return; }
    l := l.(startTimestamp := v);
    ok, v := ReadNextLong(m, r, bs, 32, l.stopTimestamp);
    if !ok { return; }
    l := l.(stopTimestamp := v);
    ok, v := ReadNextLong(m, r, bs, 40, l.startPosition);
    if !ok { return; }
    l := l.(startPosition := v);
    ok, v := ReadNextLong(m, r, bs, 48, l.stopPosition);
    if !ok { return; }
    l := l.(stopPosition := v);
  }

  method ReadInts(m: Marshaller, r: Reader, was: Ints) returns (ok: bool, i: Ints)
    requires m.b8.Length == 8
    modifies r, m.b8
    ensures ok <==> |old(r.bytes)| >= 24
    ensures ok ==> i == IntsAt(old(r.bytes)) && r.bytes == old(r.bytes)[24..]
  {
    hide Int;
    ghost var bs := r.bytes;
    i := was;
    var v;
    ok, v := ReadNextInt(m, r, bs, 0, i.initialTermId);
    if !ok { return; }
    i := i.(initialTermId := v);
    ok, v := ReadNextInt(m, r, bs, 4, i.segmentFileLength);
    if !ok { return; }
    i := i.(segmentFileLength := v);
    ok, v := ReadNextInt(m, r, bs, 8, i.termBufferLength);
    if !ok { return; }
    i := i.(termBufferLength := v);
    ok, v := ReadNextInt(m, r, bs, 12, i.mtuLength);
    if !ok { return; }
    i := i.(mtuLength := v);
    ok, v := ReadNextInt(m, r, bs, 16, i.sessionId);
    if !ok { return; }
    i := i.(sessionId := v);
    ok, v := ReadNextInt(m, r, bs, 20, i.streamId);
    if !ok { return; }
    i := i.(streamId := v);
  }

  method ReadVarField(m: Marshaller, r: Reader, was: seq<byte>) returns (ok: bool, s: seq<byte>)
    requires m.b8.Length == 8
    modifies r, m.b8
    ensures ok <==> ReadVar(old(r.bytes)).Field?
    ensures ok ==> ReadVar(old(r.bytes)) == Field(s, r.bytes)
  {
    s := was;
    ghost var bs := r.bytes;
    var n;
    ok, n := m.ReadUint32(r);
    if ok {
      var buffer := new byte[n](_ => 0);
      ok := r.ReadFull(buffer, n);
      s := buffer[..n];
      if ok {
        SliceStep(bs, 4, n);
      }
    }
  }

  /** `Decode`, into a descriptor that had the value was; in the reader is left what follows. An error leaves the fields
      read before it overwritten. */
  method Decode(m: Marshaller, r: Reader, was: Descriptor, actingVersion: nat, blockLength: nat, doRangeCheck: bool)
    returns (ok: bool, d: Descriptor)
    requires m.b8.Length == 8
    modifies r, m.b8
    ensures ok <==> Decoded(old(r.bytes), actingVersion, blockLength, doRangeCheck).Ok?
    ensures ok ==> Decoded(old(r.bytes), actingVersion, blockLength, doRangeCheck) == Ok(d, r.bytes)
  {
    hide LongsAt, IntsAt, ReadVar, InRange;
    ghost var bs := r.bytes;
    d := was;
    var l, i, s;
    ok, l := ReadLongs(m, r, d.longs);
    d := d.(longs := l);
    if !ok { return; }
    ok, i := ReadInts(m, r, d.ints);
    d := d.(ints := i);
    if !ok { return; }
    assert r.bytes == bs[80..];
    if actingVersion > SCHEMA_VERSION && blockLength > BLOCK_LENGTH {
      r.Discard(blockLength - BLOCK_LENGTH);
    }
    assert r.bytes == Skip(bs[80..], Extra(actingVersion, blockLength));
    ok, s := ReadVarField(m, r, d.strippedChannel);
    d := d.(strippedChannel := s);
    if !ok { return; }
    ok, s := ReadVarField(m, r, d.originalChannel);
    d := d.(originalChannel := s);
    if !ok { return; }
    ok, s := ReadVarField(m, r, d.sourceIdentity);
    d := d.(sourceIdentity := s);
    if !ok { return; }
    if doRangeCheck && !InRange(d) {
      ok := false;
    }
  }

  // ---------------------------------------------------------------------------------------------
  // What decodes to what
  // ---------------------------------------------------------------------------------------------

  lemma {:induction false} OffsetMonotone(width: nat, i: nat, n: nat)
    requires i < n
    ensures Offset(width, i) + width <= Offset(width, n)
    decreases n
  {
    if i < n - 1 {
      OffsetMonotone(width, i, n - 1);
    }
  }

  lemma {:induction false} PackedSlice(width: nat, vs: seq<int>, i: nat)
    requires i < |vs|
    ensures var at := Offset(width, i);
            at + width <= |Packed(width, vs)| && Packed(width, vs)[at..at + width] == Bytes(vs[i], width)
    decreases |vs|
  {
    hide Bytes, Offset;
    var last, at := |vs| - 1, Offset(width, i);
    var head := Packed(width, vs[..last]);
    OffsetMonotone(width, i, |vs|);
    if i < last {
      PackedSlice(width, vs[..last], i);
      assert (head + Bytes(vs[last], width))[at..at + width] == head[at..at + width];
    } else {
      assert (head + Bytes(vs[last], width))[|head|..|head| + width] == Bytes(vs[last], width);
    }
  }

  ghost predicate SliceHolds(width: nat, bs: seq<byte>, i: nat, v: int) {
    var at := Offset(width, i);
    at + width <= |bs| && bs[at..at + width] == Bytes(v, width)
  }

  lemma {:induction false} PackedFromSlices(width: nat, vs: seq<int>, bs: seq<byte>)
    requires |bs| == Offset(width, |vs|)
    requires forall i | 0 <= i < |vs| :: SliceHolds(width, bs, i, vs[i])
    ensures bs == Packed(width, vs)
    decreases |vs|
  {
    hide Bytes, SliceHolds;
    if vs != [] {
      var last := |vs| - 1;
      var cut, front := Offset(width, last), vs[..last];
      assert |bs| == cut + width;
      LastSlice(width, bs, last, vs[last]);
      forall i | 0 <= i < |front|
        ensures SliceHolds(width, bs[..cut], i, front[i])
      {
        assert front[i] == vs[i] && SliceHolds(width, bs, i, vs[i]);
        SliceOfPrefix(width, bs, i, last, vs[i]);
      }
      PackedFromSlices(width, front, bs[..cut]);
      assert bs == bs[..cut] + bs[cut..];
    }
  }

  lemma LastSlice(width: nat, bs: seq<byte>, last: nat, v: int)
    requires SliceHolds(width, bs, last, v) && |bs| == Offset(width, last) + width
    ensures bs[Offset(width, last)..] == Bytes(v, width)
  {
  }

  lemma SliceOfPrefix(width: nat, bs: seq<byte>, i: nat, n: nat, v: int)
    requires SliceHolds(width, bs, i, v) && i < n && Offset(width, n) <= |bs|
    ensures SliceHolds(width, bs[..Offset(width, n)], i, v)
  {
    hide Bytes;
    OffsetMonotone(width, i, n);
    var at := Offset(width, i);
    assert bs[..Offset(width, n)][at..at + width] == bs[at..at + width];
  }

  lemma LongsRoundTrip(l: Longs, rest: seq<byte>)
    ensures LongsAt(Packed(8, LongValues(l)) + rest) == l
  {
    hide Packed, Long;
    LongAt(LongValues(l), rest, 0);
    LongAt(LongValues(l), rest, 1);
    LongAt(LongValues(l), rest, 2);
    LongAt(LongValues(l), rest, 3);
    LongAt(LongValues(l), rest, 4);
    LongAt(LongValues(l), rest, 5);
    LongAt(LongValues(l), rest, 6);
  }

  lemma LongAt(vs: seq<int>, rest: seq<byte>, i: nat)
    requires i < |vs| && MIN_INT64 <= vs[i] < -MIN_INT64
    ensures Long(Packed(8, vs) + rest, 8 * i) == vs[i]
  {
    hide Packed, Bytes, Signed;
    var bs := Packed(8, vs);
    PackedSlice(8, vs, i);
    assert (bs + rest)[8 * i..8 * i + 8] == bs[8 * i..8 * i + 8];
    LongFits(vs[i]);
    SignedOfBytes(vs[i], 8);
  }

  lemma IntAt(vs: seq<int>, rest: seq<byte>, i: nat)
    requires i < |vs| && MIN_INT32 <= vs[i] < -MIN_INT32
    ensures Int(Packed(4, vs) + rest, 4 * i) == vs[i]
  {
    hide Packed, Bytes, Signed;
    var bs := Packed(4, vs);
    PackedSlice(4, vs, i);
    assert (bs + rest)[4 * i..4 * i + 4] == bs[4 * i..4 * i + 4];
    LongFits(vs[i]);
    SignedOfBytes(vs[i], 4);
  }

  lemma LongFits(v: int)
    ensures Fits(v, 8) <==> MIN_INT64 <= v < -MIN_INT64
    ensures Fits(v, 4) <==> MIN_INT32 <= v < -MIN_INT32
  {
    assert Pow256(4) == 0x1_0000_0000;
    assert Pow256(6) == 0x1_0000_0000_0000 && Pow256(8) == 0x1_0000_0000_0000_0000;
  }

  lemma IntsRoundTrip(i: Ints, rest: seq<byte>)
    ensures IntsAt(Packed(4, IntValues(i)) + rest) == i
  {
    hide Packed, Int;
    IntAt(IntValues(i), rest, 0);
    IntAt(IntValues(i), rest, 1);
    IntAt(IntValues(i), rest, 2);
    IntAt(IntValues(i), rest, 3);
    IntAt(IntValues(i), rest, 4);
    IntAt(IntValues(i), rest, 5);
  }

  lemma LongsDetermineBytes(bs: seq<byte>)
    requires |bs| >= 56
    ensures bs[..56] == Packed(8, LongValues(LongsAt(bs)))
  {
    hide Packed, Bytes, Signed;
    var vs := LongValues(LongsAt(bs));
    forall i | 0 <= i < |vs|
      ensures SliceHolds(8, bs[..56], i, vs[i])
    {
      assert bs[..56][8 * i..8 * i + 8] == bs[8 * i..8 * i + 8];
      BytesOfSigned(bs[8 * i..8 * i + 8]);
      assert vs[i] == Long(bs, 8 * i);
    }
    PackedFromSlices(8, vs, bs[..56]);
  }

  lemma IntsDetermineBytes(bs: seq<byte>)
    requires |bs| >= 24
    ensures bs[..24] == Packed(4, IntValues(IntsAt(bs)))
  {
    hide Packed, Bytes, Signed;
    var vs := IntValues(IntsAt(bs));
    forall i | 0 <= i < |vs|
      ensures SliceHolds(4, bs[..24], i, vs[i])
    {
      assert bs[..24][4 * i..4 * i + 4] == bs[4 * i..4 * i + 4];
      BytesOfSigned(bs[4 * i..4 * i + 4]);
      assert vs[i] == Int(bs, 4 * i);
    }
    PackedFromSlices(4, vs, bs[..24]);
  }

  /** The fixed block holds exactly the thirteen integers. */
  lemma BlockIff(bs: seq<byte>, d: Descriptor)
    requires |bs| >= BLOCK_LENGTH
    ensures LongsAt(bs) == d.longs && IntsAt(bs[56..]) == d.ints <==> bs[..BLOCK_LENGTH] == Block(d)
  {
    hide Packed, LongsAt, IntsAt;
    var l, i := d.longs, d.ints;
    var a, b, rest := Packed(8, LongValues(l)), Packed(4, IntValues(i)), bs[BLOCK_LENGTH..];
    LongsDetermineBytes(bs);
    IntsDetermineBytes(bs[56..]);
    assert bs[..BLOCK_LENGTH] == bs[..56] + bs[56..][..24];
    if bs[..BLOCK_LENGTH] == a + b {
      assert bs == a + (b + rest) && bs[56..] == b + rest;
      LongsRoundTrip(l, b + rest);
      IntsRoundTrip(i, rest);
    }
  }

  /** A variable-length field is read back if and only if its length fits in 32 bits. */
  lemma ReadVarIff(bs: seq<byte>, s: seq<byte>, rest: seq<byte>)
    ensures ReadVar(bs) == Field(s, rest) <==> |s| < TWO_32 && bs == Var(s) + rest
  {
    hide Bytes, Unsigned, Signed;
    assert Pow256(4) == TWO_32;
    if |bs| >= 4 {
      BytesOfLength(bs[..4]);
      assert ReadVar(bs) == Field(s, rest) ==> bs == bs[..4] + s + rest;
    }
    if |s| < TWO_32 && bs == Var(s) + rest {
      LengthOfBytes(|s|);
      assert bs[..4] == Bytes(|s|, 4) && bs[4..] == s + rest;
      assert bs[4..4 + |s|] == s && bs[4 + |s|..] == rest;
    }
  }

  lemma LengthOfBytes(n: nat)
    requires n < TWO_32
    ensures Unsigned(Bytes(n, 4)) == n
  {
    UnsignedOfBytes(n, 4);
    assert Pow256(4) == TWO_32;
    var k: int :| Unsigned(Bytes(n, 4)) == n + k * Pow256(4);
  }

  lemma BytesOfLength(bs: seq<byte>)
    requires |bs| == 4
    ensures Bytes(Unsigned(bs), 4) == bs && Unsigned(bs) < TWO_32
  {
    BytesOfUnsigned(bs, 0);
    assert Pow256(4) == TWO_32;
  }

  lemma TailIff(l: Longs, i: Ints, bs: seq<byte>, doRangeCheck: bool, d: Descriptor, rest: seq<byte>)
    ensures DecodedTail(l, i, bs, doRangeCheck) == Ok(d, rest)
       <==> d.longs == l && d.ints == i && bs == Tail(d) + rest && ShortFields(d) && (doRangeCheck ==> InRange(d))
  {
    hide ReadVar, Var, InRange;
    var a, b, c := Var(d.strippedChannel), Var(d.originalChannel), Var(d.sourceIdentity);
    assert Tail(d) + rest == a + (b + (c + rest));
    ReadVarIff(bs, d.strippedChannel, b + (c + rest));
    ReadVarIff(b + (c + rest), d.originalChannel, c + rest);
    ReadVarIff(c + rest, d.sourceIdentity, rest);
    var fa := ReadVar(bs);
    if fa.Field? {
      ReadVarIff(bs, fa.value, fa.rest);
      var fb := ReadVar(fa.rest);
      if fb.Field? {
        ReadVarIff(fa.rest, fb.value, fb.rest);
        var fc := ReadVar(fb.rest);
        if fc.Field? {
          ReadVarIff(fb.rest, fc.value, fc.rest);
        }
      }
    }
  }

  /** Exactly these bytes decode to d and leave rest: the fixed block of d, whatever a later version put after it, and
      the three variable-length fields of d, none of them longer than a 32-bit length can say. */
  lemma DecodedIff(bs: seq<byte>, actingVersion: nat, blockLength: nat, doRangeCheck: bool, d: Descriptor,
                   rest: seq<byte>)
    ensures Decoded(bs, actingVersion, blockLength, doRangeCheck) == Ok(d, rest)
       <==> && ShortFields(d) && (doRangeCheck ==> InRange(d))
            && exists extra: seq<byte> :: |extra| == Extra(actingVersion, blockLength)
                                          && bs == Block(d) + extra + Tail(d) + rest
  {
    hide Decoded, Block, Tail, InRange, Extra;
    if Decoded(bs, actingVersion, blockLength, doRangeCheck) == Ok(d, rest) {
      var extra := DecodedHolds(bs, actingVersion, blockLength, doRangeCheck, d, rest);
    }
    forall extra: seq<byte> | |extra| == Extra(actingVersion, blockLength) && bs == Block(d) + extra + Tail(d) + rest
      ensures ShortFields(d) && (doRangeCheck ==> InRange(d)) ==>
                Decoded(bs, actingVersion, blockLength, doRangeCheck) == Ok(d, rest)
    {
      HeldDecodes(extra, actingVersion, blockLength, doRangeCheck, d, rest);
    }
  }

  lemma DecodedHolds(bs: seq<byte>, actingVersion: nat, blockLength: nat, doRangeCheck: bool, d: Descriptor,
                     rest: seq<byte>)
    returns (extra: seq<byte>)
    requires Decoded(bs, actingVersion, blockLength, doRangeCheck) == Ok(d, rest)
    ensures ShortFields(d) && (doRangeCheck ==> InRange(d))
    ensures |extra| == Extra(actingVersion, blockLength) && bs == Block(d) + extra + Tail(d) + rest
  {
    hide LongsAt, IntsAt, DecodedTail, InRange, Block, Tail;
    var n, after := Extra(actingVersion, blockLength), bs[BLOCK_LENGTH..];
    TailIff(LongsAt(bs), IntsAt(bs[56..]), Skip(after, n), doRangeCheck, d, rest);
    BlockIff(bs, d);
    TailNotEmpty(d);
    extra := after[..n];
    Regroup(bs, Block(d), extra, Tail(d), rest);
  }

  lemma Regroup(bs: seq<byte>, block: seq<byte>, extra: seq<byte>, tail: seq<byte>, rest: seq<byte>)
    requires |block| + |extra| <= |bs| && bs[..|block|] == block && bs[|block|..][..|extra|] == extra
    requires bs[|block|..][|extra|..] == tail + rest
    ensures bs == block + extra + tail + rest
  {
    var after := bs[|block|..];
    assert bs == block + after && after == extra + after[|extra|..];
  }

  lemma HeldDecodes(extra: seq<byte>, actingVersion: nat, blockLength: nat, doRangeCheck: bool, d: Descriptor,
                    rest: seq<byte>)
    requires |extra| == Extra(actingVersion, blockLength)
    ensures ShortFields(d) && (doRangeCheck ==> InRange(d)) ==>
              Decoded(Block(d) + extra + Tail(d) + rest, actingVersion, blockLength, doRangeCheck) == Ok(d, rest)
  {
    hide LongsAt, IntsAt, DecodedTail, InRange, Block, Tail;
    var bs := Block(d) + extra + Tail(d) + rest;
    assert bs[..BLOCK_LENGTH] == Block(d);
    var after := bs[BLOCK_LENGTH..];
    assert after[|extra|..] == Tail(d) + rest;
    BlockIff(bs, d);
    TailIff(d.longs, d.ints, Tail(d) + rest, doRangeCheck, d, rest);
  }

  lemma TailNotEmpty(d: Descriptor)
    ensures |Tail(d)| > 0
  {
  }

  /** Decoding what was encoded gives it back and consumes exactly its bytes if and only if no variable-length field is
      longer than 2^32 - 1 bytes. */
  lemma RoundTripIff(d: Descriptor, following: seq<byte>, actingVersion: nat, blockLength: nat)
    requires Extra(actingVersion, blockLength) == 0
    ensures Decoded(Block(d) + Tail(d) + following, actingVersion, blockLength, false) == Ok(d, following)
       <==> ShortFields(d)
  {
    hide Decoded, Block, Tail;
    var bs := Block(d) + Tail(d) + following;
    DecodedIff(bs, actingVersion, blockLength, false, d, following);
    var extra: seq<byte> := [];
    assert |extra| == 0 && bs == Block(d) + extra + Tail(d) + following;
  }

  lemma TooLongFieldIsLost(l: Longs, i: Ints)
    ensures var d := Descriptor(l, i, seq(TWO_32, _ => 0), [], []);
            Decoded(Block(d) + Tail(d) + [], SCHEMA_VERSION, BLOCK_LENGTH, false) != Ok(d, [])
  {
    hide Decoded, Block, Tail;
    RoundTripIff(Descriptor(l, i, seq(TWO_32, _ => 0), [], []), [], SCHEMA_VERSION, BLOCK_LENGTH);
  }

  /** A later version's message, whose fixed block is longer, decodes to the same known fields. */
  lemma LaterVersionDecodes(d: Descriptor, extra: seq<byte>, following: seq<byte>, actingVersion: nat)
    requires actingVersion > SCHEMA_VERSION && ShortFields(d)
    ensures Decoded(Block(d) + extra + Tail(d) + following, actingVersion, BLOCK_LENGTH + |extra|, false)
         == Ok(d, following)
  {
    hide Decoded, Block, Tail;
    DecodedIff(Block(d) + extra + Tail(d) + following, actingVersion, BLOCK_LENGTH + |extra|, false, d, following);
  }

  /** No proper prefix of an encoding decodes. */
  lemma TruncatedIsRejected(d: Descriptor, n: nat, actingVersion: nat, blockLength: nat, doRangeCheck: bool)
    requires Extra(actingVersion, blockLength) == 0 && ShortFields(d) && n < |Block(d) + Tail(d)|
    ensures Decoded((Block(d) + Tail(d))[..n], actingVersion, blockLength, doRangeCheck) == Err
  {
    hide Decoded, Block, Tail;
    var whole := Block(d) + Tail(d);
    var r := Decoded(whole[..n], actingVersion, blockLength, doRangeCheck);
    if r.Ok? {
      DecodedIff(whole[..n], actingVersion, blockLength, doRangeCheck, r.d, r.rest);
      var extra: seq<byte> :| |extra| == 0 && whole[..n] == Block(r.d) + extra + Tail(r.d) + r.rest;
      assert whole == whole[..n] + whole[n..];
      assert whole == Block(r.d) + Tail(r.d) + (r.rest + whole[n..]);
      RoundTripIff(r.d, r.rest + whole[n..], actingVersion, blockLength);
      assert whole == Block(d) + Tail(d) + [];
      RoundTripIff(d, [], actingVersion, blockLength);
    }
  }
}

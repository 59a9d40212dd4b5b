/** Simple Binary Encoding of archive messages: the shared marshaller (archive/codecs/SbeMarshalling.go) and the
    recording descriptor (archive/codecs/RecordingDescriptor.go). */
module Sbe {
  import opened Bits

  const SCHEMA_VERSION: int := 6
  const BLOCK_LENGTH: nat := 80

  // ---------------------------------------------------------------------------------------------
  // Little-endian integers
  // ---------------------------------------------------------------------------------------------

  function Pow256(n: nat): (p: int)
    ensures p > 0
  {
    if n == 0 then 1 else 256 * Pow256(n - 1)
  }

  /** `v >> 8*i`, arithmetic. */
  function Shr(v: int, i: nat): (r: int) {
    if i == 0 then v else Shr(v, i - 1) / 256
  }

  /** The bytes `byte(v >> 8*i)` for i below n. */
  function Bytes(v: int, n: nat): (bs: seq<byte>)
    ensures |bs| == n
  {
    seq(n, i requires 0 <= i < n => Shr(v, i) % 256)
  }

  function Unsigned(bs: seq<byte>): (u: nat)
    ensures u < Pow256(|bs|)
  {
    if bs == [] then 0 else bs[0] + 256 * Unsigned(bs[1..])
  }

  /** Two's complement. */
  function Signed(bs: seq<byte>): (v: int) {
    var u := Unsigned(bs);
    if 2 * u < Pow256(|bs|) then u else u - Pow256(|bs|)
  }

  /** v is an integer of n bytes. */
  predicate Fits(v: int, n: nat) {
    -Pow256(n) <= 2 * v < Pow256(n)
  }

  // ---------------------------------------------------------------------------------------------
  // The marshaller
  // ---------------------------------------------------------------------------------------------

  /** An `io.Writer` that takes everything. */
  class Writer {
    var bytes: seq<byte>

    constructor ()
      ensures bytes == []
    {
      bytes := [];
    }

    method Write(bs: seq<byte>)
      modifies this
      ensures bytes == old(bytes) + bs
    {
      bytes := bytes + bs;
    }
  }

  /** An `io.Reader` over the bytes that remain. */
  class Reader {
    var bytes: seq<byte>

    constructor (bs: seq<byte>)
      ensures bytes == bs
    {
      bytes := bs;
    }

    /** `io.ReadFull` into the first n bytes of a buffer: all of them, or an error. */
    method ReadFull(buffer: array<byte>, n: nat) returns (ok: bool)
      requires n <= buffer.Length
      modifies this, buffer
      ensures ok <==> n <= |old(bytes)|
      ensures ok ==> buffer[..n] == old(bytes)[..n] && bytes == old(bytes)[n..]
    {
      ok := n <= |bytes|;
      if ok {
        var bs := bytes;
        forall i | 0 <= i < n { buffer[i] := bs[i]; }
        bytes := bytes[n..];
      } else {
        bytes := [];
      }
    }

    /** `io.CopyN` to nowhere, whose error is ignored. */
    method Discard(n: nat)
      modifies this
      ensures bytes == Skip(old(bytes), n)
    {
      bytes := if n <= |bytes| then bytes[n..] else [];
    }
  }

  function Skip(bs: seq<byte>, n: nat): (rest: seq<byte>) {
    if n <= |bs| then bs[n..] else []
  }

  /** b8 is overwritten by every read and write; b4 is its first half. */
  class Marshaller {
    const b8: array<byte>

    constructor ()
      ensures b8.Length == 8 && fresh(b8)
    {
      b8 := new byte[8](_ => 0);
    }

    method WriteInt32(w: Writer, v: int)
      requires b8.Length == 8
      modifies w, b8
      ensures w.bytes == old(w.bytes) + Bytes(v, 4)
    {
      hide Shr;
      b8[0] := Shr(v, 0) % 256;
      b8[1] := Shr(v, 1) % 256;
      b8[2] := Shr(v, 2) % 256;
      b8[3] := Shr(v, 3) % 256;
      assert b8[..4] == Bytes(v, 4);
      w.Write(b8[..4]);
    }

    method WriteInt64(w: Writer, v: int)
      requires b8.Length == 8
      modifies w, b8
      ensures w.bytes == old(w.bytes) + Bytes(v, 8)
    {
      hide Shr;
      b8[0] := Shr(v, 0) % 256;
      b8[1] := Shr(v, 1) % 256;
      b8[2] := Shr(v, 2) % 256;
      b8[3] := Shr(v, 3) % 256;
      b8[4] := Shr(v, 4) % 256;
      b8[5] := Shr(v, 5) % 256;
      b8[6] := Shr(v, 6) % 256;
      b8[7] := Shr(v, 7) % 256;
      assert b8[..8] == Bytes(v, 8);
      w.Write(b8[..8]);
    }

    method ReadUint32(r: Reader) returns (ok: bool, v: int)
      requires b8.Length == 8
      modifies r, b8
      ensures ok <==> |old(r.bytes)| >= 4
      ensures ok ==> v == Unsigned(old(r.bytes)[..4]) && r.bytes == old(r.bytes)[4..]
    {
      v := 0;
      ok := r.ReadFull(b8, 4);
      if ok {
        v := Word(b8[0], b8[1], b8[2], b8[3]);
        Unsigned4(b8[..4]);
      }
    }

    method ReadInt32(r: Reader) returns (ok: bool, v: int)
      requires b8.Length == 8
      modifies r, b8
      ensures ok <==> |old(r.bytes)| >= 4
      ensures ok ==> v == Signed(old(r.bytes)[..4]) && r.bytes == old(r.bytes)[4..]
    {
      v := 0;
      ok := r.ReadFull(b8, 4);
      if ok {
        v := ToInt32(Word(b8[0], b8[1], b8[2], b8[3]));
        Unsigned4(b8[..4]);
      }
    }

    method ReadInt64(r: Reader) returns (ok: bool, v: int)
      requires b8.Length == 8
      modifies r, b8
      ensures ok <==> |old(r.bytes)| >= 8
      ensures ok ==> v == Signed(old(r.bytes)[..8]) && r.bytes == old(r.bytes)[8..]
    {
      v := 0;
      ok := r.ReadFull(b8, 8);
      if ok {
        v := ToInt64(Word(b8[0], b8[1], b8[2], b8[3])
                     + 0x1_0000_0000 * Word(b8[4], b8[5], b8[6], b8[7]));
        Unsigned8(b8[..8]);
        assert b8[..8][..4] == b8[..4] && b8[..8][4..] == b8[4..8];
      }
    }
  }

  /** Four bytes shifted into place and combined. */
  function Word(a: int, b: int, c: int, d: int): (w: int) {
    a + 0x100 * b + 0x1_0000 * c + 0x100_0000 * d
  }

  /** Go's conversion of an unsigned 64-bit pattern to int64. */
  function ToInt64(u: int): (v: int) {
    if u < 0x8000_0000_0000_0000 then u else u - 0x1_0000_0000_0000_0000
  }

  lemma Unsigned4(bs: seq<byte>)
    requires |bs| == 4
    ensures Unsigned(bs) == Word(bs[0], bs[1], bs[2], bs[3])
    ensures Pow256(4) == 0x1_0000_0000
  {
    assert Unsigned(bs[1..]) == bs[1] + 256 * Unsigned(bs[1..][1..]);
    assert bs[1..][1..] == bs[2..] && bs[2..][1..] == bs[3..] && bs[3..][1..] == [];
    var c: int, d: int := bs[2], bs[3];
    assert Unsigned(bs[3..]) == d;
    assert Unsigned(bs[2..]) == c + 256 * d;
    assert Pow256(2) == 0x1_0000;
  }

  lemma {:induction false} UnsignedConcat(a: seq<byte>, b: seq<byte>)
    ensures Unsigned(a + b) == Unsigned(a) + Pow256(|a|) * Unsigned(b)
    decreases |a|
  {
    if a == [] {
      assert a + b == b;
    } else {
      assert (a + b)[1..] == a[1..] + b;
      UnsignedConcat(a[1..], b);
      MulAssoc(256, Pow256(|a| - 1), Unsigned(b));
    }
  }

  lemma Unsigned8(bs: seq<byte>)
    requires |bs| == 8
    ensures Unsigned(bs) == Word(bs[0], bs[1], bs[2], bs[3])
                            + 0x1_0000_0000 * Word(bs[4], bs[5], bs[6], bs[7])
    ensures Pow256(8) == 0x1_0000_0000_0000_0000
  {
    assert bs == bs[..4] + bs[4..];
    UnsignedConcat(bs[..4], bs[4..]);
    Unsigned4(bs[..4]);
    Unsigned4(bs[4..]);
    assert Pow256(6) == 0x1_0000_0000_0000;
  }

  // ---------------------------------------------------------------------------------------------
  // Integers round trip
  // ---------------------------------------------------------------------------------------------

  lemma {:induction false} ShrOnce(v: int, i: nat)
    ensures Shr(v, i + 1) == Shr(v / 256, i)
  {
    if i > 0 {
      ShrOnce(v, i - 1);
    }
  }

  lemma BytesFirst(v: int, n: nat)
    requires n > 0
    ensures Bytes(v, n) == [v % 256] + Bytes(v / 256, n - 1)
  {
    forall i | 0 <= i < n - 1
      ensures Shr(v, i + 1) == Shr(v / 256, i)
    {
      ShrOnce(v, i);
    }
  }

  /** The bytes hold v modulo 256^n. */
  lemma {:induction false} UnsignedOfBytes(v: int, n: nat)
    ensures exists k: int :: Unsigned(Bytes(v, n)) == v + k * Pow256(n)
    decreases n
  {
    if n == 0 {
      assert Unsigned(Bytes(v, 0)) == v + (-v) * Pow256(0);
    } else {
      BytesFirst(v, n);
      UnsignedOfBytes(v / 256, n - 1);
      var k: int :| Unsigned(Bytes(v / 256, n - 1)) == v / 256 + k * Pow256(n - 1);
      assert Bytes(v, n)[1..] == Bytes(v / 256, n - 1);
      var p := Pow256(n - 1);
      assert 256 * (k * p) == k * (256 * p);
      assert Unsigned(Bytes(v, n)) == v + k * Pow256(n);
    }
  }

  lemma {:induction false} BytesOfUnsigned(bs: seq<byte>, k: int)
    ensures Bytes(Unsigned(bs) + k * Pow256(|bs|), |bs|) == bs
    decreases |bs|
  {
    if bs != [] {
      var n, u, p := |bs|, Unsigned(bs[1..]), Pow256(|bs| - 1);
      var v := Unsigned(bs) + k * Pow256(n);
      assert k * (256 * p) == 256 * (k * p);
      assert v == bs[0] + 256 * (u + k * p);
      assert v % 256 == bs[0] && v / 256 == u + k * p;
      BytesFirst(v, n);
      BytesOfUnsigned(bs[1..], k);
    }
  }

  /** Writing then reading an integer gives it back, exactly when it fits. */
  lemma SignedOfBytes(v: int, n: nat)
    requires n > 0
    ensures Signed(Bytes(v, n)) == v <==> Fits(v, n)
    ensures Fits(Signed(Bytes(v, n)), n)
  {
    UnsignedOfBytes(v, n);
    var u, p := Unsigned(Bytes(v, n)), Pow256(n);
    var k: int :| u == v + k * p;
    if Fits(v, n) {
      assert k == 0 || k == 1 by { assert -p < 2 * (k * p) < 3 * p; SmallFactor(k, p); }
    }
  }

  lemma SmallFactor(k: int, p: int)
    requires p > 0 && -p < 2 * (k * p) < 3 * p
    ensures k == 0 || k == 1
  {
    assert k >= 2 ==> k * p >= 2 * p;
    assert k <= -1 ==> k * p <= -p;
  }

  /** Reading then writing gives the same bytes. */
  lemma BytesOfSigned(bs: seq<byte>)
    ensures Bytes(Signed(bs), |bs|) == bs && Fits(Signed(bs), |bs|)
  {
    BytesOfUnsigned(bs, 0);
    BytesOfUnsigned(bs, -1);
  }
}

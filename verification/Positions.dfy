/** Stream positions as the publisher (aeron/publication.go), the subscriber (aeron/image_impl.go) and the frame
    header (aeron/logbuffer/header.go) compute them, each by its own arithmetic. */
module Positions {
  import opened Bits
  import opened LogFrames
  import opened Rotation

  /** `util.IsPowerOfTwo`. */
  predicate IsPowerOfTwo(value: bv64) {
    0 < value < 0x8000_0000_0000_0000 && value & (!value + 1) == value
  }

  /** `checkTermLength`: what a log buffer accepts; anything else panics. */
  predicate CheckTermLength(length: bv32) {
    0x1_0000 <= length <= 0x4000_0000 && IsPowerOfTwo(length as bv64)
  }

  function Pow2(n: nat): (r: int)
    ensures r > 0
  {
    if n == 0 then 1 else 2 * Pow2(n - 1)
  }

  lemma {:induction false} Pow2Sum(a: nat, b: nat)
    ensures Pow2(a + b) == Pow2(a) * Pow2(b)
  {
    if a > 0 {
      Pow2Sum(a - 1, b);
      assert Pow2(a + b) == 2 * Pow2(a - 1 + b);
      assert 2 * (Pow2(a - 1) * Pow2(b)) == (2 * Pow2(a - 1)) * Pow2(b);
    }
  }

  lemma Pow2Values()
    ensures Pow2(16) == 0x1_0000 && Pow2(17) == 0x2_0000 && Pow2(18) == 0x4_0000 && Pow2(19) == 0x8_0000
    ensures Pow2(20) == 0x10_0000 && Pow2(21) == 0x20_0000 && Pow2(22) == 0x40_0000 && Pow2(23) == 0x80_0000
    ensures Pow2(24) == 0x100_0000 && Pow2(25) == 0x200_0000 && Pow2(26) == 0x400_0000 && Pow2(27) == 0x800_0000
    ensures Pow2(28) == 0x1000_0000 && Pow2(29) == 0x2000_0000 && Pow2(30) == 0x4000_0000 && Pow2(32) == TWO_32
  {
    assert Pow2(4) == 16;
    assert Pow2(8) == 256;
    assert Pow2(12) == 4096;
    assert Pow2(16) == 0x1_0000;
  }

  /** The accepted lengths are the powers of two from 2^16 to 2^30. */
  lemma AcceptedLengthsIff(length: bv32)
    ensures CheckTermLength(length)
       <==> length in {0x1_0000, 0x2_0000, 0x4_0000, 0x8_0000, 0x10_0000, 0x20_0000, 0x40_0000, 0x80_0000,
                       0x100_0000, 0x200_0000, 0x400_0000, 0x800_0000, 0x1000_0000, 0x2000_0000, 0x4000_0000}
  {
    var v := length as bv64;
    assert CheckTermLength(length) ==> (
           v == 0x1_0000 || v == 0x2_0000 || v == 0x4_0000 || v == 0x8_0000
        || v == 0x10_0000 || v == 0x20_0000 || v == 0x40_0000 || v == 0x80_0000
        || v == 0x100_0000 || v == 0x200_0000 || v == 0x400_0000 || v == 0x800_0000
        || v == 0x1000_0000 || v == 0x2000_0000 || v == 0x4000_0000);
  }

  /** For every accepted term length the trailing-zero table yields the true shift. */
  lemma ShiftOfTermLength(length: bv32) returns (bits: nat)
    requires CheckTermLength(length)
    ensures bits == NumberOfTrailingZeroes(length) as nat && 16 <= bits <= 30
    ensures length as int == Pow2(bits)
  {
    hide Pow2, CheckTermLength;
    AcceptedLengthsIff(length);
    Pow2Values();
    bits := NumberOfTrailingZeroes(length) as nat;
    if length < 0x100_0000 {
      ShiftOfSmall(length);
    } else {
      ShiftOfLarge(length);
    }
  }

  lemma ShiftOfSmall(length: bv32)
    requires length in {0x1_0000, 0x2_0000, 0x4_0000, 0x8_0000, 0x10_0000, 0x20_0000, 0x40_0000, 0x80_0000}
    ensures 16 <= NumberOfTrailingZeroes(length) as nat <= 23
    ensures length as int == Pow2(NumberOfTrailingZeroes(length) as nat)
  {
    hide Pow2;
    Pow2Values();
  }

  lemma ShiftOfLarge(length: bv32)
    requires length in {0x100_0000, 0x200_0000, 0x400_0000, 0x800_0000, 0x1000_0000, 0x2000_0000, 0x4000_0000}
    ensures 24 <= NumberOfTrailingZeroes(length) as nat <= 30
    ensures length as int == Pow2(NumberOfTrailingZeroes(length) as nat)
  {
    hide Pow2;
    Pow2Values();
  }

  // ---------------------------------------------------------------------------------------------
  // The three computations
  // ---------------------------------------------------------------------------------------------

  /** `computeTermBeginPosition`: an int32 subtraction, then a 64-bit shift. */
  function TermBeginPosition(termId: int, bits: nat, initialTermId: int): (p: int) {
    ToInt32(termId - initialTermId) * Pow2(bits)
  }

  /** `Publication.Position` and the position `Offer` starts from. */
  function PublisherPosition(rawTail: int, bits: nat, initialTermId: int): (p: int) {
    TermBeginPosition(TermID(rawTail), bits, initialTermId) + TermOffset(rawTail)
  }

  lemma QuotientNonNegative(x: int, d: int)
    requires 0 <= x && d > 0
    ensures 0 <= x / d
  {
  }

  /** `uint64(position) >> positionBitsToShift`. */
  function TermCount(position: nat, bits: nat): (n: nat) {
    QuotientNonNegative(position, Pow2(bits));
    position / Pow2(bits)
  }

  /** `indexByPosition`: the subscriber's partition. */
  function IndexByPosition(position: nat, bits: nat): (i: int)
    requires TermCount(position, bits) < TWO_32
  {
    FastMod3(TermCount(position, bits))
  }

  /** `int32(position) & termLengthMask`. */
  function SubscriberOffset(position: int, termLength: int): (o: int)
    requires termLength > 0
  {
    ToInt32(position) % termLength
  }

  /** `Header.Position`: where the image stands once this frame is consumed. */
  function HeaderPosition(termId: int, frameOffset: int, frameLength: int, bits: nat, initialTermId: int): (p: int) {
    ToInt32(termId - initialTermId) * Pow2(bits) + AlignInt32(frameOffset + frameLength, FRAME_ALIGNMENT)
  }

  // ---------------------------------------------------------------------------------------------
  // Agreement
  // ---------------------------------------------------------------------------------------------

  lemma DivModUnique(x: int, d: int, q: int, r: int)
    requires d > 0 && 0 <= r < d && x == q * d + r
    ensures x / d == q && x % d == r
  {
    var q', r' := x / d, x % d;
    assert x == d * q' + r';
    assert (q - q') * d == r' - r;
    SmallMultiple(q - q', d);
  }

  /** Adding a multiple of d does not change the remainder. */
  lemma ModShift(x: int, k: int, d: int)
    requires d > 0
    ensures (x + k * d) % d == x % d
  {
    var q, r := x / d, x % d;
    assert x == d * q + r;
    MulDistributes(q, k, d);
    DivModUnique(x + k * d, d, q + k, r);
  }

  /** Narrowing a position to int32 keeps its offset in the term: every term length divides 2^32. */
  lemma NarrowingKeepsOffset(position: int, bits: nat)
    requires bits <= 32
    ensures SubscriberOffset(position, Pow2(bits)) == position % Pow2(bits)
  {
    hide Pow2;
    var L, m := Pow2(bits), Pow2(32 - bits);
    assert TWO_32 == m * L by { Pow2Values(); Pow2Sum(32 - bits, bits); }
    var j := NarrowedBy(position);
    MulAssoc(j, m, L);
    ModShift(position, j * m, L);
  }

  lemma NarrowedBy(x: int) returns (j: int)
    ensures ToInt32(x) == x + j * TWO_32
  {
    j := ToInt32(x) / TWO_32 - x / TWO_32;
  }

  lemma MulDistributes(a: int, b: int, c: int)
    ensures (a + b) * c == a * c + b * c
  {
  }

  /** For every term number below 2^31, however often the ids have wrapped, the publisher's raw tail and the
      subscriber's position lead to the same partition and the same offset. */
  lemma PublisherAndSubscriberAgree(c: Config, bits: nat, n: int, offset: int, rawTail: int)
    requires 16 <= bits <= 30 && 0 <= n < TWO_31 && 0 <= offset < Pow2(bits)
    requires TermID(rawTail) == IdOf(c, n) && TermOffset(rawTail) == offset
    ensures var position := PublisherPosition(rawTail, bits, c.initialTermId);
            && position == n * Pow2(bits) + offset && 0 <= position && TermCount(position, bits) < TWO_32
            && IndexByPosition(position, bits) == Partition(n)
            && SubscriberOffset(position, Pow2(bits)) == offset
  {
    hide Pow2, TermID, TermOffset, FastMod3;
    ToInt32Nested(-c.initialTermId, c.initialTermId + n);
    var L := Pow2(bits);
    var position := n * L + offset;
    assert n * L >= 0;
    DivModUnique(position, L, n, offset);
    NarrowingKeepsOffset(position, bits);
  }

  /** The header's position is the subscriber's position after the frame, including at the end of a term. */
  lemma HeaderPositionIsNextPosition(c: Config, bits: nat, n: int, offset: int, frameLength: int)
    requires 16 <= bits <= 30 && 0 <= n < TWO_31
    requires 0 <= offset && offset % FRAME_ALIGNMENT == 0 && 0 < frameLength && offset + frameLength <= Pow2(bits)
    ensures HeaderPosition(IdOf(c, n), offset, frameLength, bits, c.initialTermId)
         == (n * Pow2(bits) + offset) + AlignInt32(frameLength, FRAME_ALIGNMENT)
  {
    hide Pow2;
    ToInt32Nested(-c.initialTermId, c.initialTermId + n);
    assert Pow2(bits) <= 0x4000_0000 by { Pow2AtMost(bits); }
    AlignShift(offset, frameLength);
  }

  lemma Pow2AtMost(bits: nat)
    requires 16 <= bits <= 30
    ensures Pow2(bits) <= 0x4000_0000
  {
    Pow2Values();
  }

  lemma AlignShift(offset: int, n: int)
    requires 0 <= offset && offset % 32 == 0 && 0 <= n && offset + n <= 0x4000_0000
    ensures AlignInt32(offset + n, 32) == offset + AlignInt32(n, 32)
  {
    var q := offset / 32;
    assert offset == q * 32;
    ModShift(n + 31, q, 32);
  }

  /** Term number and offset to position and back is the identity, and so the term id comes back too. */
  lemma TermAndOffsetRoundTrip(c: Config, bits: nat, n: nat, offset: nat)
    requires bits <= 30 && n < TWO_31 && offset < Pow2(bits)
    ensures var position := TermBeginPosition(IdOf(c, n), bits, c.initialTermId) + offset;
            && position >= 0 && TermCount(position, bits) == n && IdOf(c, TermCount(position, bits)) == IdOf(c, n)
            && SubscriberOffset(position, Pow2(bits)) == offset
  {
    hide Pow2, ToInt32;
    ToInt32Nested(-c.initialTermId, c.initialTermId + n);
    ToInt32Small(n);
    var position := n * Pow2(bits) + offset;
    assert n * Pow2(bits) >= 0;
    DivModUnique(position, Pow2(bits), n, offset);
    NarrowingKeepsOffset(position, bits);
  }

  lemma ToInt32Small(n: int)
    requires -TWO_31 <= n < TWO_31
    ensures ToInt32(n) == n
  {
  }

  /** Position to term id and offset and back is the identity. */
  lemma PositionRoundTrip(c: Config, bits: nat, position: nat)
    requires bits <= 30 && TermCount(position, bits) < TWO_31
    ensures var termId := IdOf(c, TermCount(position, bits)); var offset := SubscriberOffset(position, Pow2(bits));
            TermBeginPosition(termId, bits, c.initialTermId) + offset == position
  {
    hide Pow2, ToInt32;
    var n := TermCount(position, bits);
    assert position == Pow2(bits) * n + position % Pow2(bits);
    ToInt32Nested(-c.initialTermId, c.initialTermId + n);
    NarrowingKeepsOffset(position, bits);
  }

  // ---------------------------------------------------------------------------------------------
  // What Offer returns
  // ---------------------------------------------------------------------------------------------

  /** `newPosition` for an append that fitted: it reuses the position and offset read before the append. */
  function OfferedPosition(pc: PC, resultingOffset: int): (p: int)
    requires pc.Append?
  {
    (pc.position - pc.offset) + resultingOffset
  }

  /** The position `Offer` returns is the end of the appended message if and only if the partition had not moved
      on to a later term between the check and the append. */
  lemma OfferedPositionRightIff(c: Config, s: State, p: Publisher, length: int)
    requires Inv(c, s) && Enabled(c, s, DoAppend(p, length)) && Next(c, s, DoAppend(p, length)).procs[p].Returned?
    ensures var pc := s.procs[p]; var i := Partition(pc.count);
            var resultingOffset := TermOffset(s.tails[i]) + length;
            OfferedPosition(pc, resultingOffset) == s.terms[i] * c.termLength + resultingOffset
            <==> s.terms[i] == pc.count
  {
    hide ToInt32, TermOffset, TermID, IdOf, Partition, TermsOk, TailsOk;
    var pc := s.procs[p];
    var k := s.terms[Partition(pc.count)];
    assert PublisherOk(c, s, pc);
    ProductsEqualIff(k, pc.count, c.termLength);
  }

  lemma ProductsEqualIff(a: int, b: int, d: int)
    requires d > 0
    ensures a * d == b * d <==> a == b
  {
    if a * d == b * d {
      assert (a - b) * d == 0;
      SmallMultiple(a - b, d);
    }
  }
}

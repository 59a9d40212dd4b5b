/** A publication's log as the term buffers hold it, and what an image sees of it from its byte position. */
module LogLayout {
  import opened Bits
  import opened LogFrames
  import opened Rotation
  import opened Positions
  import opened Image
  import opened ImageProof

  /** The frames published from a base position on, one after the other. */
  datatype Stream = Stream(config: Config, bits: nat, base: nat, log: seq<Frame>)

  ghost function TermLength(st: Stream): (n: int)
    ensures n > 0
  {
    Pow2(st.bits)
  }

  /** Where frame i starts, or where the next one will. */
  ghost function PositionAt(st: Stream, i: nat): (p: int)
    requires i <= |st.log|
  {
    st.base + AlignedSum(st.log[..i])
  }

  /** A frame lies in one term and its header says which, and at which offset. */
  ghost predicate FrameOk(st: Stream, i: nat)
    requires i < |st.log|
  {
    var f, p, T := st.log[i], PositionAt(st, i), TermLength(st);
    && 0 < f.length && p % T + f.length <= T
    && f.offset == p % T && f.termId == IdOf(st.config, p / T)
  }

  /** What publishers append: frames on the alignment, padded to the end of each term, below 2^31 terms. */
  ghost predicate LaidOut(st: Stream) {
    && 16 <= st.bits <= 30 && st.base % FRAME_ALIGNMENT == 0
    && (forall i | 0 <= i < |st.log| :: FrameOk(st, i))
    && PositionAt(st, |st.log|) / TermLength(st) < TWO_31
  }

  // ---------------------------------------------------------------------------------------------
  // Positions of frames
  // ---------------------------------------------------------------------------------------------

  lemma TermLengthFacts(st: Stream)
    requires 16 <= st.bits <= 30
    ensures 0 < TermLength(st) <= 0x4000_0000 && TermLength(st) % 32 == 0
  {
    Pow2AtMost(st.bits);
    Pow2Sum(st.bits - 5, 5);
    assert Pow2(5) == 32;
    hide Pow2;
    ModShift(0, Pow2(st.bits - 5), 32);
  }

  lemma NextPosition(st: Stream, i: nat)
    requires i < |st.log|
    ensures PositionAt(st, i + 1) == PositionAt(st, i) + Aligned(st.log[i])
  {
    hide Aligned;
    TakeOneMore(st.log, i);
  }

  /** An offset is on the alignment exactly when the position is. */
  lemma OffsetAligned(p: int, T: int)
    requires T > 0 && T % 32 == 0 && p % 32 == 0
    ensures (p % T) % 32 == 0
  {
    var q, t := p / T, T / 32;
    assert p == T * q + p % T && T == 32 * t;
    MulAssoc(32, t, q);
    ModShift(p % T, t * q, 32);
  }

  lemma AlignedFits(length: int, offset: int, T: int)
    requires 0 < length && 0 <= offset && offset % 32 == 0 && T % 32 == 0 && offset + length <= T <= 0x4000_0000
    ensures 0 < AlignInt32(length, 32) && offset + AlignInt32(length, 32) <= T && AlignInt32(length, 32) % 32 == 0
  {
  }

  /** Every frame starts on the alignment, at a position that is not negative, and takes some room within its term. */
  lemma {:induction false} FrameFacts(st: Stream, i: nat)
    requires LaidOut(st) && i < |st.log|
    ensures PositionAt(st, i) >= 0 && PositionAt(st, i) % 32 == 0
    ensures 0 < Aligned(st.log[i]) && PositionAt(st, i) % TermLength(st) + Aligned(st.log[i]) <= TermLength(st)
    ensures Aligned(st.log[i]) % 32 == 0 && st.log[i].offset % 32 == 0
  {
    hide Pow2, AlignInt32, LaidOut, AlignedSum;
    LayoutFacts(st);
    FramePlace(st, i);
    TermLengthFacts(st);
    if i > 0 {
      FrameFacts(st, i - 1);
      NextPosition(st, i - 1);
      MultiplesAdd(PositionAt(st, i - 1), Aligned(st.log[i - 1]));
    } else {
      NothingSums(st.log);
    }
    OffsetAligned(PositionAt(st, i), TermLength(st));
    AlignedFits(st.log[i].length, PositionAt(st, i) % TermLength(st), TermLength(st));
  }

  lemma MultiplesAdd(a: int, b: int)
    requires a % 32 == 0 && b % 32 == 0
    ensures (a + b) % 32 == 0
  {
  }

  lemma LayoutFacts(st: Stream)
    requires LaidOut(st)
    ensures 16 <= st.bits <= 30 && st.base % 32 == 0
  {
  }

  lemma FramePlace(st: Stream, i: nat)
    requires LaidOut(st) && i < |st.log|
    ensures var f, o, T := st.log[i], PositionAt(st, i) % TermLength(st), TermLength(st);
            0 < f.length && o + f.length <= T && f.offset == o
  {
    hide Pow2, AlignedSum, IdOf;
    assert FrameOk(st, i);
  }

  lemma LogPositive(st: Stream)
    requires LaidOut(st)
    ensures AllPositive(st.log)
  {
    hide LaidOut, AlignInt32, Aligned;
    forall i | 0 <= i < |st.log|
      ensures Aligned(st.log[i]) > 0
    {
      FrameFacts(st, i);
    }
  }

  lemma PositionsAscend(st: Stream, i: nat, j: nat)
    requires LaidOut(st) && i <= j <= |st.log|
    ensures 0 <= PositionAt(st, i) <= PositionAt(st, j) && (i < j ==> PositionAt(st, i) < PositionAt(st, j))
  {
    hide LaidOut, AlignedSum;
    LogPositive(st);
    SumMonotone(st.log, 0, i);
    SumMonotone(st.log, i, j);
    assert AlignedSum(st.log[..0]) == 0 by { NothingSums(st.log); }
  }

  lemma NothingSums(fs: seq<Frame>)
    ensures AlignedSum(fs[..0]) == 0
  {
  }

  /** `Header.Position` for a frame of the log, derived from what its header says. */
  function PositionOfFrame(initialTermId: int, bits: nat, f: Frame): (p: int) {
    HeaderPosition(f.termId, f.offset, f.length, bits, initialTermId)
  }

  /** It is where the next frame starts. */
  lemma HeaderGivesNextPosition(st: Stream, i: nat)
    requires LaidOut(st) && i < |st.log|
    ensures PositionOfFrame(st.config.initialTermId, st.bits, st.log[i]) == PositionAt(st, i + 1)
  {
    hide Pow2, AlignInt32, HeaderPosition, IdOf;
    FrameFacts(st, i);
    NextPosition(st, i);
    var p, T, f := PositionAt(st, i), TermLength(st), st.log[i];
    TermBelowLimit(st, i);
    assert FrameOk(st, i);
    HeaderPositionIsNextPosition(st.config, st.bits, p / T, p % T, f.length);
    assert p == (p / T) * T + p % T;
  }

  lemma TermBelowLimit(st: Stream, i: nat)
    requires LaidOut(st) && i <= |st.log|
    ensures 0 <= PositionAt(st, i) && 0 <= PositionAt(st, i) / TermLength(st) < TWO_31
  {
    hide Pow2, FrameOk, AlignedSum;
    PositionsAscend(st, i, |st.log|);
    QuotientsAscend(PositionAt(st, i), PositionAt(st, |st.log|), TermLength(st));
  }

  lemma QuotientsAscend(x: int, y: int, d: int)
    requires 0 <= x <= y && d > 0
    ensures 0 <= x / d <= y / d
  {
    var q, r := y / d, x / d;
    assert y == d * q + y % d && x == d * r + x % d;
    MulGap(d, r, q);
  }

  lemma MulGap(d: int, r: int, q: int)
    requires d > 0
    ensures r > q ==> d * r >= d * q + d
  {
    if r > q {
      assert d * (r - q - 1) >= 0;
    }
  }

  // ---------------------------------------------------------------------------------------------
  // What the buffers show
  // ---------------------------------------------------------------------------------------------

  ghost predicate NoFrame(term: Term, offset: int) {
    offset !in term || term[offset].length <= 0
  }

  /** The buffer of term n holds frames lo to hi of the log at their places; after them comes a gap or the end of the
      term. */
  ghost predicate TermShows(term: Term, st: Stream, n: nat, lo: nat, hi: nat) {
    var T := TermLength(st);
    && lo <= hi <= |st.log|
    && (forall i | lo <= i < hi ::
          PositionAt(st, i) / T == n && PositionAt(st, i) % T in term && term[PositionAt(st, i) % T] == st.log[i])
    && (PositionAt(st, hi) / T == n ==> NoFrame(term, PositionAt(st, hi) % T))
  }

  /** The image's buffers show the log from frame lo up to hi: the term of frame lo is in its partition. */
  ghost predicate Shows(terms: seq<Term>, st: Stream, lo: nat, hi: nat) {
    && |terms| == 3 && lo <= |st.log|
    && var n := PositionAt(st, lo) / TermLength(st);
       n >= 0 && TermShows(terms[Partition(n)], st, n, lo, hi)
  }

  lemma {:induction false} ChainIsLog(term: Term, st: Stream, n: nat, lo: nat, hi: nat)
    requires LaidOut(st) && TermShows(term, st, n, lo, hi) && PositionAt(st, lo) / TermLength(st) == n
    ensures Chain(term, PositionAt(st, lo) % TermLength(st), TermLength(st)) == st.log[lo..hi]
    decreases hi - lo
  {
    hide Pow2, LaidOut, AlignedSum, Aligned;
    var T, p := TermLength(st), PositionAt(st, lo);
    if lo == hi {
      assert NoFrame(term, p % T);
    } else {
      var f := st.log[lo];
      FrameFacts(st, lo);
      FramePlace(st, lo);
      NextPosition(st, lo);
      assert lo + 1 < hi ==> PositionAt(st, lo + 1) / T == n;
      AdvancedDivMod(p, T, Aligned(f));
      assert term[p % T] == f && Chain(term, p % T, T) == [f] + Chain(term, p % T + Aligned(f), T);
      if p % T + Aligned(f) < T {
        ChainIsLog(term, st, n, lo + 1, hi);
      } else {
        assert PositionAt(st, lo + 1) / T == n + 1;
      }
      assert st.log[lo..hi] == [f] + st.log[lo + 1..hi];
    }
  }

  /** From the byte position of frame lo, an image derives the partition and the offset at which it then finds exactly
      the frames lo to hi, whatever term that is. */
  lemma AheadIsLog(terms: seq<Term>, st: Stream, lo: nat, hi: nat)
    requires LaidOut(st) && Shows(terms, st, lo, hi)
    ensures var p := PositionAt(st, lo);
            && 0 <= p && TermCount(p, st.bits) < TWO_31
            && 0 <= IndexByPosition(p, st.bits) < 3
            && Chain(terms[IndexByPosition(p, st.bits)], SubscriberOffset(p, TermLength(st)), TermLength(st))
               == st.log[lo..hi]
  {
    hide Pow2, LaidOut, AlignedSum, FastMod3, Chain, TermShows;
    var p := PositionAt(st, lo);
    TermBelowLimit(st, lo);
    LayoutFacts(st);
    NarrowingKeepsOffset(p, st.bits);
    var n := p / TermLength(st);
    ChainIsLog(terms[Partition(n)], st, n, lo, hi);
  }

  /** Consuming m of the frames in front moves the byte position to the start of the next one, in this term or at the
      start of the following one. */
  lemma ResumesAt(st: Stream, lo: nat, hi: nat, m: nat)
    requires LaidOut(st) && lo <= hi <= |st.log| && m <= hi - lo
    ensures PositionAt(st, lo) + AlignedSum(st.log[lo..hi][..m]) == PositionAt(st, lo + m)
    ensures 0 <= PositionAt(st, lo + m) && TermCount(PositionAt(st, lo + m), st.bits) < TWO_31
  {
    hide Pow2, LaidOut, AlignedSum;
    assert st.log[lo..hi][..m] == st.log[lo..lo + m];
    assert st.log[..lo + m] == st.log[..lo] + st.log[lo..lo + m];
    AlignedSumConcat(st.log[..lo], st.log[lo..lo + m]);
    TermBelowLimit(st, lo + m);
  }

  /** An image that stands at frame next of its stream. */
  ghost predicate InStep(image: LogImage, st: Stream, next: nat)
    reads image
  {
    && image.Valid() && LaidOut(st) && image.bits == st.bits && next <= |st.log|
    && image.subscriberPosition == PositionAt(st, next)
  }
}

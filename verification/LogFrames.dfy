/** Frames of a term buffer, as aeron/logbuffer/FrameDescriptor.go reads them. */
module LogFrames {
  import opened Bits

  const FRAME_ALIGNMENT: int := 32

  /** One frame; begin and end are the flag bits 0x80 and 0x40, termId and offset say where in the log it lies. */
  datatype Frame = Frame(length: int, padding: bool, begin: bool, end: bool, sessionId: int, payload: seq<byte>,
                         termId: int, offset: int)

  /** Frames by term offset; at any other offset the length word reads as zero. */
  type Term = map<int, Frame>

  function Aligned(f: Frame): (n: int) {
    AlignInt32(f.length, FRAME_ALIGNMENT)
  }

  /** What appenders produce: frames start on the alignment and end inside the term. */
  predicate ValidTerm(term: Term, capacity: int) {
    && 0 < capacity <= 0x4000_0000 && capacity % 32 == 0
    && forall o | o in term && term[o].length > 0 :: 0 <= o && o % 32 == 0 && o + term[o].length <= capacity
  }

  lemma FrameFits(term: Term, capacity: int, o: int)
    requires ValidTerm(term, capacity) && o in term && term[o].length > 0
    ensures 0 < term[o].length <= Aligned(term[o]) && o + Aligned(term[o]) <= capacity
  {
  }

  /** The frames a reader finds one after the other from an offset, up to the first gap. */
  function Chain(term: Term, offset: int, capacity: int): (fs: seq<Frame>)
    decreases capacity - offset
  {
    if offset < capacity && offset in term && term[offset].length > 0 && Aligned(term[offset]) > 0
    then [term[offset]] + Chain(term, offset + Aligned(term[offset]), capacity)
    else []
  }

  function AlignedSum(fs: seq<Frame>): (n: int) {
    if fs == [] then 0 else Aligned(fs[0]) + AlignedSum(fs[1..])
  }

  /** The frames that carry data; padding is skipped by every reader. */
  function DataFrames(fs: seq<Frame>): (ds: seq<Frame>)
    ensures |ds| <= |fs|
  {
    if fs == [] then [] else (if fs[0].padding then [] else [fs[0]]) + DataFrames(fs[1..])
  }

  lemma {:induction false} AlignedSumConcat(a: seq<Frame>, b: seq<Frame>)
    ensures AlignedSum(a + b) == AlignedSum(a) + AlignedSum(b)
  {
    if a == [] {
      assert a + b == b;
    } else {
      assert (a + b)[1..] == a[1..] + b;
      AlignedSumConcat(a[1..], b);
    }
  }

  lemma {:induction false} DataFramesConcat(a: seq<Frame>, b: seq<Frame>)
    ensures DataFrames(a + b) == DataFrames(a) + DataFrames(b)
  {
    if a == [] {
      assert a + b == b;
    } else {
      assert (a + b)[1..] == a[1..] + b;
      DataFramesConcat(a[1..], b);
    }
  }

  lemma TakeOneMore(fs: seq<Frame>, n: nat)
    requires n < |fs|
    ensures fs[..n + 1] == fs[..n] + [fs[n]]
    ensures AlignedSum(fs[..n + 1]) == AlignedSum(fs[..n]) + Aligned(fs[n])
    ensures DataFrames(fs[..n + 1]) == DataFrames(fs[..n]) + (if fs[n].padding then [] else [fs[n]])
  {
    assert fs[..n + 1] == fs[..n] + [fs[n]];
    AlignedSumConcat(fs[..n], [fs[n]]);
    DataFramesConcat(fs[..n], [fs[n]]);
    assert [fs[n]][1..] == [];
  }

  /** Walking n frames down the chain leads to the rest of the chain. */
  lemma {:induction false} ChainSuffix(term: Term, offset: int, capacity: int, n: nat)
    requires ValidTerm(term, capacity) && 0 <= offset && n <= |Chain(term, offset, capacity)|
    ensures Chain(term, offset + AlignedSum(Chain(term, offset, capacity)[..n]), capacity)
         == Chain(term, offset, capacity)[n..]
    ensures n == 0 || offset < offset + AlignedSum(Chain(term, offset, capacity)[..n]) <= capacity
    decreases n
  {
    hide AlignInt32, Aligned;
    var fs := Chain(term, offset, capacity);
    if n > 0 {
      var f := term[offset];
      FrameFits(term, capacity, offset);
      assert fs[..n][1..] == fs[1..][..n - 1];
      ChainSuffix(term, offset + Aligned(f), capacity, n - 1);
    }
  }

  /** At the offset reached, the reader sees the next frame of the chain, or nothing. */
  lemma ChainStep(term: Term, offset: int, capacity: int, n: nat)
    requires ValidTerm(term, capacity) && 0 <= offset && n <= |Chain(term, offset, capacity)|
    ensures var fs := Chain(term, offset, capacity); var at := offset + AlignedSum(fs[..n]);
            if n < |fs| then at < capacity && at in term && term[at] == fs[n] && term[at].length > 0
                             && 0 < Aligned(fs[n]) && at + Aligned(fs[n]) <= capacity
            else at >= capacity || at !in term || term[at].length <= 0
  {
    hide AlignInt32, Aligned;
    ChainSuffix(term, offset, capacity, n);
    var at := offset + AlignedSum(Chain(term, offset, capacity)[..n]);
    if at in term && term[at].length > 0 {
      FrameFits(term, capacity, at);
    }
  }
}

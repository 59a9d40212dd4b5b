/** What polling an image guarantees, for every frame layout and every handler. */
module ImageProof {
  import opened Bits
  import opened LogFrames
  import opened Positions
  import opened Image

  // ---------------------------------------------------------------------------------------------
  // The position only moves forward, and the next poll resumes where this one stopped
  // ---------------------------------------------------------------------------------------------

  /** Every frame of a chain is at least as long as its alignment. */
  ghost predicate AllPositive(fs: seq<Frame>) {
    forall i | 0 <= i < |fs| :: Aligned(fs[i]) > 0
  }

  lemma {:induction false} ChainPositive(term: Term, offset: int, capacity: int)
    ensures AllPositive(Chain(term, offset, capacity))
    decreases capacity - offset
  {
    hide AlignInt32, Aligned;
    if offset < capacity && offset in term && term[offset].length > 0 && Aligned(term[offset]) > 0 {
      ChainPositive(term, offset + Aligned(term[offset]), capacity);
    }
  }

  lemma {:induction false} SumMonotone(fs: seq<Frame>, m: nat, n: nat)
    requires AllPositive(fs) && m <= n <= |fs|
    ensures AlignedSum(fs[..m]) <= AlignedSum(fs[..n]) && (m < n ==> AlignedSum(fs[..m]) < AlignedSum(fs[..n]))
    decreases n - m
  {
    hide Aligned, AlignedSum, DataFrames;
    if m < n {
      SumMonotone(fs, m, n - 1);
      TakeOneMore(fs, n - 1);
    }
  }

  lemma SumNonNegative(fs: seq<Frame>, n: nat)
    requires AllPositive(fs) && n <= |fs|
    ensures AlignedSum(fs[..n]) >= 0
  {
    SumMonotone(fs, 0, n);
  }

  lemma AppendNonDecreasing(from: int, ps: seq<int>, p: int)
    requires NonDecreasing(from, ps) && LastOr(ps, from) <= p
    ensures NonDecreasing(from, ps + [p]) && LastOr(ps + [p], from) == p
  {
    var qs := ps + [p];
    forall i | 0 < i < |qs|
      ensures qs[i - 1] <= qs[i]
    {
      if i < |ps| { assert ps[i - 1] <= ps[i]; }
    }
  }

  lemma {:induction false} CommitsAscend<H>(handler: Handler<H>, h: H, fs: seq<Frame>, n: nat, position: int)
    requires AllPositive(fs) && n <= |fs|
    ensures var ps := CommitStores(handler, h, fs[..n], position);
            NonDecreasing(position, ps) && position <= LastOr(ps, position) <= position + AlignedSum(fs[..n])
    decreases n
  {
    hide AlignInt32, Aligned, Walk, Smooth, AlignedSum, NonDecreasing;
    if n == 0 {
      NothingStored(position);
      SumNonNegative(fs, 0);
    } else {
      hide CommitStores;
      CommitsAscend(handler, h, fs, n - 1, position);
      SumMonotone(fs, n - 1, n);
      WalkOneMore(handler, h, fs, n - 1, position);
      var ps := CommitStores(handler, h, fs[..n - 1], position);
      AppendNonDecreasing(position, ps, position + AlignedSum(fs[..n]));
      assert ps + [] == ps;
    }
  }

  lemma NothingStored(position: int)
    ensures NonDecreasing(position, [])
  {
  }

  /** `ControlledPoll` never stores a position behind the previous one, and the last store is the new position. */
  lemma StoresNeverMoveBack<H>(handler: Handler<H>, h: H, term: Term, offset: int, capacity: int, n: nat, position: int)
    requires n <= |Chain(term, offset, capacity)|
    ensures var fs := Chain(term, offset, capacity); var end := position + AlignedSum(fs[..n]);
            var commits := CommitStores(handler, h, fs[..n], position);
            var stores := commits + (if end > LastOr(commits, position) then [end] else []);
            NonDecreasing(position, stores) && LastOr(stores, position) == end
  {
    hide Chain, AlignedSum, CommitStores;
    ChainPositive(term, offset, capacity);
    var fs := Chain(term, offset, capacity);
    CommitsAscend(handler, h, fs, n, position);
    var commits := CommitStores(handler, h, fs[..n], position);
    AppendNonDecreasing(position, commits, position + AlignedSum(fs[..n]));
    assert commits + [] == commits;
  }

  /** Where a position that advanced by sum lies: further in the same term, or at the start of the next partition. */
  lemma AdvancedPosition(position: nat, bits: nat, sum: nat)
    requires 16 <= bits <= 30 && TermCount(position, bits) + 1 < TWO_32
    requires SubscriberOffset(position, Pow2(bits)) + sum <= Pow2(bits)
    ensures var o := SubscriberOffset(position, Pow2(bits)); var n := TermCount(position, bits);
            && TermCount(position + sum, bits) <= n + 1
            && (o + sum < Pow2(bits) ==>
                  && IndexByPosition(position + sum, bits) == IndexByPosition(position, bits)
                  && SubscriberOffset(position + sum, Pow2(bits)) == o + sum)
            && (o + sum == Pow2(bits) ==>
                  && IndexByPosition(position + sum, bits) == (IndexByPosition(position, bits) + 1) % 3
                  && SubscriberOffset(position + sum, Pow2(bits)) == 0)
  {
    hide Pow2, FastMod3, ToInt32, SubscriberOffset, TermCount;
    NarrowingKeepsOffset(position, bits);
    NarrowingKeepsOffset(position + sum, bits);
    TermCountIs(position, bits);
    TermCountIs(position + sum, bits);
    AdvancedDivMod(position, Pow2(bits), sum);
  }

  lemma TermCountIs(position: nat, bits: nat)
    ensures TermCount(position, bits) == position / Pow2(bits)
  {
  }

  lemma AdvancedDivMod(x: int, d: int, sum: nat)
    requires d > 0 && x % d + sum <= d
    ensures x % d + sum < d ==> (x + sum) / d == x / d && (x + sum) % d == x % d + sum
    ensures x % d + sum == d ==> (x + sum) / d == x / d + 1 && (x + sum) % d == 0
  {
    var q, r := x / d, x % d;
    assert x == d * q + r;
    if r + sum < d {
      DivModUnique(x + sum, d, q, r + sum);
    } else {
      assert x + sum == (q + 1) * d + 0;
      DivModUnique(x + sum, d, q + 1, 0);
    }
  }

  /** An aborted frame is not consumed: it is the first frame in front of the next poll of the same term. */
  lemma AbortedFrameIsNext<H>(term: Term, offset: int, capacity: int, limit: int, handler: Handler<H>, h: H,
                              n: nat, h': H, read: int)
    requires ValidTerm(term, capacity) && 0 <= offset
    requires var fs := Chain(term, offset, capacity);
             && ControlledOutcome(fs, limit, handler, h, n, h', read)
             && n < |fs| && read < limit && Smooth(handler, h, fs[..n])
    ensures var fs := Chain(term, offset, capacity);
            var rest := Chain(term, offset + AlignedSum(fs[..n]), capacity);
            && handler(Walk(handler, h, fs[..n]), fs[n]) == (h', Abort)
            && rest == fs[n..] && rest != [] && rest[0] == fs[n]
  {
    hide Chain, AlignedSum, Walk, DataFrames, Aligned;
    var fs := Chain(term, offset, capacity);
    ChainSuffix(term, offset, capacity, n);
    if n > 0 && !fs[n - 1].padding {
      assert fs[..n][..n - 1] == fs[..n - 1];
    }
  }

  // ---------------------------------------------------------------------------------------------
  // The commit bound
  // ---------------------------------------------------------------------------------------------

  /** The narrowed limit is not beyond the true one if and only if the limit lies at most 2^31 bytes behind the start of
      the term. */
  lemma LimitOffsetSafeIff(limitPosition: int, position: int, offset: int, capacity: int)
    requires 0 <= offset < capacity <= 0x4000_0000
    ensures LimitOffset(limitPosition, position, offset, capacity) <= offset + (limitPosition - position)
       <==> limitPosition - position + offset >= -TWO_31
  {
    ToInt32Nested(offset, limitPosition - position);
  }

  /** Below that the narrowing turns a limit far behind into the end of the term. */
  lemma LimitFarBehindIsUnsafe()
    ensures var position := TWO_31 + 0x1_0000;
            LimitOffset(0, position, SubscriberOffset(position, 0x1_0000), 0x1_0000) == 0x1_0000
  {
  }

  /** The poll can move if and only if the low 32 bits of the distance are positive and, with the term offset added, fit
      in an int32; so with less than 2^31 bytes committed ahead it can when the distance plus the offset fits, and
      otherwise stays where it is although messages are committed. */
  lemma PollCanMoveIff(limitPosition: int, position: int, offset: int, capacity: int)
    requires 0 <= offset < capacity <= 0x4000_0000
    ensures LimitOffset(limitPosition, position, offset, capacity) > offset
       <==> 0 < (limitPosition - position) % TWO_32 < TWO_31 - offset
  {
  }

  lemma CommittedButStuck()
    ensures var offset := SubscriberOffset(32, 0x1_0000); LimitOffset(TWO_31, 32, offset, 0x1_0000) < offset
  {
  }

  /** The limit falls between two frames, or outside what is visible in this term. */
  ghost predicate OnBoundary(fs: seq<Frame>, distance: int) {
    || distance <= 0 || distance >= AlignedSum(fs)
    || exists m: nat :: m <= |fs| && distance == AlignedSum(fs[..m])
  }

  /** No frame that ends beyond the limit position is handed to the handler, whatever the narrowing does. */
  lemma CommitBound<H>(fs: seq<Frame>, limitPosition: int, position: int, offset: int, capacity: int, limit: int,
                       handler: FragmentHandler<H>, h: H, n: nat, h': H, read: int)
    requires AllPositive(fs) && 0 <= offset < capacity <= 0x4000_0000 && limitPosition - position + offset >= -TWO_31
    requires OnBoundary(fs, limitPosition - position)
    requires ReadOutcome(fs, LimitOffset(limitPosition, position, offset, capacity) - offset, limit, handler, h, n, h',
                         read)
    ensures forall i | 0 < i <= n :: position + AlignedSum(fs[..i]) <= limitPosition
  {
    hide AlignedSum, LimitOffset, Fold, DataFrames;
    LimitOffsetSafeIff(limitPosition, position, offset, capacity);
    var d := limitPosition - position;
    forall i | 0 < i <= n
      ensures position + AlignedSum(fs[..i]) <= limitPosition
    {
      var j: nat := i - 1;
      assert AlignedSum(fs[..j]) < d;
      SumNonNegative(fs, j);
      if d >= AlignedSum(fs) {
        SumMonotone(fs, i, |fs|);
        assert fs[..|fs|] == fs;
      } else {
        var m: nat :| m <= |fs| && d == AlignedSum(fs[..m]);
        if m < i { SumMonotone(fs, m, j); } else { SumMonotone(fs, i, m); }
      }
    }
  }

  /** When the distance plus the offset fits in an int32, everything below the limit in this term is delivered,
      up to the fragment limit. */
  lemma CommittedFramesAreDelivered<H>(fs: seq<Frame>, limitPosition: int, position: int, offset: int, capacity: int,
                                       limit: int, handler: FragmentHandler<H>, h: H, n: nat, h': H, read: int)
    requires 0 <= offset < capacity && 0 <= limitPosition - position && limitPosition - position + offset < TWO_31
    requires offset + AlignedSum(fs) <= capacity && AllPositive(fs)
    requires ReadOutcome(fs, LimitOffset(limitPosition, position, offset, capacity) - offset, limit, handler, h, n, h',
                         read)
    ensures read >= limit || n == |fs| || position + AlignedSum(fs[..n]) >= limitPosition
  {
    hide AlignedSum, Fold, DataFrames;
    if n < |fs| {
      SumMonotone(fs, n, |fs|);
      assert fs[..|fs|] == fs;
    }
  }
}

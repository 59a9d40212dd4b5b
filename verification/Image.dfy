/** Polling an image (aeron/image_impl.go). A handler is a state transformer: it takes its state and a frame and
    answers with its new state and an action, so every handler and every sequence of answers is covered. */
module Image {
  import opened Bits
  import opened LogFrames
  import opened Positions

  datatype Action = Continue | Break | Commit | Abort

  type Handler<!H> = (H, Frame) -> (H, Action)

  // ---------------------------------------------------------------------------------------------
  // What a poll amounts to
  // ---------------------------------------------------------------------------------------------

  /** The handler's state once it has seen the data frames of fs. */
  function Walk<H>(handler: Handler<H>, h: H, fs: seq<Frame>): (h': H)
    decreases |fs|
  {
    if fs == [] then h
    else
      var last := |fs| - 1;
      var h1 := Walk(handler, h, fs[..last]);
      if fs[last].padding then h1 else handler(h1, fs[last]).0
  }

  /** The handler answered Continue or Commit to every data frame of fs. */
  predicate Smooth<H>(handler: Handler<H>, h: H, fs: seq<Frame>)
    decreases |fs|
  {
    if fs == [] then true
    else
      var last := |fs| - 1;
      && Smooth(handler, h, fs[..last])
      && (fs[last].padding ||
          var a := handler(Walk(handler, h, fs[..last]), fs[last]).1; a == Continue || a == Commit)
  }

  /** The positions stored while walking: one after each frame answered with Commit. */
  function CommitStores<H>(handler: Handler<H>, h: H, fs: seq<Frame>, position: int): (ps: seq<int>)
    decreases |fs|
  {
    if fs == [] then []
    else
      var last := |fs| - 1;
      CommitStores(handler, h, fs[..last], position)
      + (if !fs[last].padding && handler(Walk(handler, h, fs[..last]), fs[last]).1 == Commit
         then [position + AlignedSum(fs)] else [])
  }

  /** Why a controlled poll stopped after consuming n of the frames in front of it, and what it leaves behind. */
  ghost predicate ControlledOutcome<H>(fs: seq<Frame>, limit: int, handler: Handler<H>, h: H, n: nat, h': H,
                                       read: int) {
    && n <= |fs| && read == |DataFrames(fs[..n])|
    && (|| (n < |fs| && !fs[n].padding && read < limit && Smooth(handler, h, fs[..n])
            && handler(Walk(handler, h, fs[..n]), fs[n]) == (h', Abort))
        || (n > 0 && !fs[n - 1].padding && Smooth(handler, h, fs[..n - 1])
            && handler(Walk(handler, h, fs[..n - 1]), fs[n - 1]) == (h', Break))
        || (Smooth(handler, h, fs[..n]) && h' == Walk(handler, h, fs[..n]) && (n == |fs| || read >= limit)))
    && (read <= limit || n == 0)
  }

  /** One frame further along the walk. */
  lemma WalkOneMore<H>(handler: Handler<H>, h: H, fs: seq<Frame>, n: nat, position: int)
    requires n < |fs|
    ensures var h1 := Walk(handler, h, fs[..n]); var f := fs[n];
            && Walk(handler, h, fs[..n + 1]) == (if f.padding then h1 else handler(h1, f).0)
            && (Smooth(handler, h, fs[..n + 1]) <==>
                  Smooth(handler, h, fs[..n]) && (f.padding || handler(h1, f).1 in {Continue, Commit}))
            && CommitStores(handler, h, fs[..n + 1], position)
               == CommitStores(handler, h, fs[..n], position)
                  + (if !f.padding && handler(h1, f).1 == Commit then [position + AlignedSum(fs[..n + 1])] else [])
  {
    assert fs[..n + 1][..n] == fs[..n];
  }

  /** The loop has consumed n frames, all answered with Continue or Commit. */
  ghost predicate Progress<H>(fs: seq<Frame>, limit: int, handler: Handler<H>, h0: H, position: int,
                              n: nat, h: H, read: int, sum: int, commits: seq<int>)
  {
    && n <= |fs| && read == |DataFrames(fs[..n])| && (read <= limit || n == 0)
    && Smooth(handler, h0, fs[..n]) && h == Walk(handler, h0, fs[..n])
    && sum == AlignedSum(fs[..n]) && commits == CommitStores(handler, h0, fs[..n], position)
  }

  lemma ProgressStarts<H>(fs: seq<Frame>, limit: int, handler: Handler<H>, h: H, position: int)
    ensures Progress(fs, limit, handler, h, position, 0, h, 0, 0, [])
  {
  }

  lemma ProgressFacts<H>(fs: seq<Frame>, limit: int, handler: Handler<H>, h0: H, position: int,
                         n: nat, h: H, read: int, sum: int, commits: seq<int>)
    requires Progress(fs, limit, handler, h0, position, n, h, read, sum, commits)
    ensures n <= |fs| && sum == AlignedSum(fs[..n]) && commits == CommitStores(handler, h0, fs[..n], position)
  {
  }

  lemma ProgressStops<H>(fs: seq<Frame>, limit: int, handler: Handler<H>, h0: H, position: int,
                         n: nat, h: H, read: int, sum: int, commits: seq<int>)
    requires Progress(fs, limit, handler, h0, position, n, h, read, sum, commits) && (n == |fs| || read >= limit)
    ensures ControlledOutcome(fs, limit, handler, h0, n, h, read)
  {
  }

  /** Consuming one more frame, whatever the handler answers. */
  lemma ProgressFrame<H>(fs: seq<Frame>, limit: int, handler: Handler<H>, h0: H, position: int,
                         n: nat, h: H, read: int, sum: int, commits: seq<int>)
    requires Progress(fs, limit, handler, h0, position, n, h, read, sum, commits) && n < |fs| && read < limit
    ensures var f := fs[n]; var sum' := sum + Aligned(f);
            && AlignedSum(fs[..n + 1]) == sum'
            && (f.padding ==> Progress(fs, limit, handler, h0, position, n + 1, h, read, sum', commits))
            && (!f.padding ==>
                  var (h', action) := handler(h, f);
                  match action
                  case Abort => ControlledOutcome(fs, limit, handler, h0, n, h', read)
                  case Break =>
                    && ControlledOutcome(fs, limit, handler, h0, n + 1, h', read + 1)
                    && commits == CommitStores(handler, h0, fs[..n + 1], position)
                  case Commit =>
                    Progress(fs, limit, handler, h0, position, n + 1, h', read + 1, sum', commits + [position + sum'])
                  case Continue => Progress(fs, limit, handler, h0, position, n + 1, h', read + 1, sum', commits))
  {
    hide Walk, Smooth, CommitStores, DataFrames, AlignedSum, AlignInt32;
    TakeOneMore(fs, n);
    WalkOneMore(handler, h0, fs, n, position);
    assert fs[..n + 1][..n] == fs[..n];
  }

  /** Positions only move forward. */
  predicate NonDecreasing(from: int, ps: seq<int>) {
    && (ps != [] ==> from <= ps[0])
    && forall i | 0 < i < |ps| :: ps[i - 1] <= ps[i]
  }

  function LastOr(ps: seq<int>, default: int): (p: int) {
    if ps == [] then default else ps[|ps| - 1]
  }

  // ---------------------------------------------------------------------------------------------
  // Reading without control
  // ---------------------------------------------------------------------------------------------

  /** A handler that gives no answer. */
  type FragmentHandler<!H> = (H, Frame) -> H

  function Fold<H>(handler: FragmentHandler<H>, h: H, fs: seq<Frame>): (h': H)
    decreases |fs|
  {
    if fs == [] then h
    else
      var last := |fs| - 1;
      var h1 := Fold(handler, h, fs[..last]);
      if fs[last].padding then h1 else handler(h1, fs[last])
  }

  /** A reader took n frames, each starting below the bound, and stopped only because it had to. */
  ghost predicate ReadOutcome<H>(fs: seq<Frame>, bound: int, limit: int, handler: FragmentHandler<H>, h: H,
                                 n: nat, h': H, read: int)
  {
    && n <= |fs| && h' == Fold(handler, h, fs[..n]) && read == |DataFrames(fs[..n])| && (read <= limit || n == 0)
    && (forall m | 0 <= m < n :: AlignedSum(fs[..m]) < bound)
    && (n == |fs| || read >= limit || AlignedSum(fs[..n]) >= bound)
  }

  lemma FoldOneMore<H>(handler: FragmentHandler<H>, h: H, fs: seq<Frame>, n: nat)
    requires n < |fs|
    ensures Fold(handler, h, fs[..n + 1])
         == var h1 := Fold(handler, h, fs[..n]); if fs[n].padding then h1 else handler(h1, fs[n])
  {
    assert fs[..n + 1][..n] == fs[..n];
  }

  lemma FoldNothing<H>(handler: FragmentHandler<H>, h: H, fs: seq<Frame>)
    ensures Fold(handler, h, fs[..0]) == h && AlignedSum(fs[..0]) == 0 && DataFrames(fs[..0]) == []
  {
  }

  /** `int32(limitPosition-initialPosition) + offset`, capped at the capacity. */
  function LimitOffset(limitPosition: int, position: int, offset: int, capacity: int): (l: int)
    ensures l <= capacity
  {
    var l := ToInt32(ToInt32(limitPosition - position) + offset);
    if l > capacity then capacity else l
  }

  // ---------------------------------------------------------------------------------------------
  // The image
  // ---------------------------------------------------------------------------------------------

  class LogImage {
    const termLength: int
    const bits: nat
    var terms: seq<Term>         // the three mapped term buffers
    var isClosed: bool
    var subscriberPosition: int
    ghost var stores: seq<int>   // every value written to the subscriber position counter

    ghost predicate Valid()
      reads this
    {
      && 16 <= bits <= 30 && termLength == Pow2(bits) && |terms| == 3
      && (forall i | 0 <= i < 3 :: ValidTerm(terms[i], termLength))
      && 0 <= subscriberPosition && TermCount(subscriberPosition, bits) < TWO_32
    }

    constructor (bits: nat, terms: seq<Term>, position: int)
      requires 16 <= bits <= 30 && |terms| == 3 && forall i | 0 <= i < 3 :: ValidTerm(terms[i], Pow2(bits))
      requires 0 <= position && TermCount(position, bits) < TWO_32
      ensures Valid() && !isClosed && subscriberPosition == position && this.bits == bits && this.terms == terms
    {
      this.bits := bits;
      this.termLength := Pow2(bits);
      this.terms := terms;
      this.isClosed := false;
      this.subscriberPosition := position;
      this.stores := [];
    }

    function TermOffset(): (o: int)
      requires Valid()
      reads this
      ensures 0 <= o < termLength
    {
      SubscriberOffset(subscriberPosition, termLength)
    }

    function CurrentTerm(): (t: Term)
      requires Valid()
      reads this
      ensures ValidTerm(t, termLength)
    {
      terms[IndexByPosition(subscriberPosition, bits)]
    }

    /** The frames in front of the subscriber in the current term. */
    ghost function Ahead(): (fs: seq<Frame>)
      requires Valid()
      reads this
    {
      Chain(CurrentTerm(), TermOffset(), termLength)
    }

    method StorePosition(position: int)
      modifies this`subscriberPosition, this`stores
      ensures subscriberPosition == position && stores == old(stores) + [position]
    {
      subscriberPosition := position;
      stores := stores + [position];
    }

    /** The polling loop over one term, from the subscriber's offset in it. */
    method ControlledLoop<H>(term: Term, startOffset: int, handler: Handler<H>, h0: H, fragmentLimit: int)
      returns (fragmentsRead: int, h: H, ghost n: nat)
      requires ValidTerm(term, termLength) && 0 <= startOffset
      modifies this`subscriberPosition, this`stores
      ensures ControlledOutcome(Chain(term, startOffset, termLength), fragmentLimit, handler, h0, n, h, fragmentsRead)
      ensures n <= |Chain(term, startOffset, termLength)|
      ensures subscriberPosition == old(subscriberPosition) + AlignedSum(Chain(term, startOffset, termLength)[..n])
      ensures var commits := CommitStores(handler, h0, Chain(term, startOffset, termLength)[..n],
                                          old(subscriberPosition));
              stores == old(stores) + commits
                        + (if subscriberPosition > LastOr(commits, old(subscriberPosition)) then [subscriberPosition]
                           else [])
    {
      hide AlignInt32, Aligned, Chain, AlignedSum, ValidTerm, ControlledOutcome, Progress, CommitStores;
      h, n, fragmentsRead := h0, 0, 0;
      var initialPosition := subscriberPosition;
      var initialOffset := startOffset;
      var offset := initialOffset;
      ghost var fs, start := Chain(term, startOffset, termLength), subscriberPosition;
      ghost var sum, commits: seq<int>, settled := 0, [], false;
      ProgressStarts(fs, fragmentLimit, handler, h0, start);
      ProgressFacts(fs, fragmentLimit, handler, h0, start, n, h, 0, sum, commits);
      while fragmentsRead < fragmentLimit && offset < termLength
        invariant Progress(fs, fragmentLimit, handler, h0, start, n, h, fragmentsRead, sum, commits)
        invariant n <= |fs| && sum == AlignedSum(fs[..n]) && commits == CommitStores(handler, h0, fs[..n], start)
        invariant offset == startOffset + sum && initialOffset <= offset
        invariant stores == old(stores) + commits && initialPosition == LastOr(commits, start) == subscriberPosition
        invariant initialPosition - initialOffset == start - startOffset && !settled
        decreases |fs| - n
      {
        ChainStep(term, startOffset, termLength, n);
        if offset !in term || term[offset].length <= 0 {
          break;
        }
        var frame := term[offset];
        offset := offset + Aligned(frame);
        ProgressFrame(fs, fragmentLimit, handler, h0, start, n, h, fragmentsRead, sum, commits);
        if frame.padding {
          n, sum := n + 1, sum + Aligned(frame);
          ProgressFacts(fs, fragmentLimit, handler, h0, start, n, h, fragmentsRead, sum, commits);
          continue;
        }
        fragmentsRead := fragmentsRead + 1;
        var (h1, action) := handler(h, frame);
        h := h1;
        if action == Abort {
          fragmentsRead := fragmentsRead - 1;
          offset := offset - Aligned(frame);
          settled := true;
          break;
        }
        n, sum := n + 1, sum + Aligned(frame);
        if action == Break {
          settled := true;
          break;
        }
        if action == Commit {
          initialPosition := initialPosition + (offset - initialOffset);
          initialOffset := offset;
          StorePosition(initialPosition);
          commits := commits + [initialPosition];
        }
        ProgressFacts(fs, fragmentLimit, handler, h0, start, n, h, fragmentsRead, sum, commits);
      }
      if !settled {
        ChainStep(term, startOffset, termLength, n);
        ProgressStops(fs, fragmentLimit, handler, h0, start, n, h, fragmentsRead, sum, commits);
      }
      var resultingPosition := initialPosition + (offset - initialOffset);
      if resultingPosition > initialPosition {
        StorePosition(resultingPosition);
      }
    }

    /** `ControlledPoll`. */
    method ControlledPoll<H>(handler: Handler<H>, h0: H, fragmentLimit: int)
      returns (fragmentsRead: int, h: H, ghost n: nat)
      requires Valid()
      modifies this`subscriberPosition, this`stores
      ensures isClosed ==> fragmentsRead == 0 && h == h0 && n == 0 && stores == old(stores)
      ensures n <= |old(Ahead())| && subscriberPosition == old(subscriberPosition) + AlignedSum(old(Ahead())[..n])
      ensures !isClosed ==>
                var commits := CommitStores(handler, h0, old(Ahead())[..n], old(subscriberPosition));
                && ControlledOutcome(old(Ahead()), fragmentLimit, handler, h0, n, h, fragmentsRead)
                && stores == old(stores) + commits
                   + (if subscriberPosition > LastOr(commits, old(subscriberPosition)) then [subscriberPosition]
                      else [])
    {
      h, n, fragmentsRead := h0, 0, 0;
      if isClosed {
        return;
      }
      hide Chain, Pow2, ControlledOutcome, CommitStores, AlignedSum;
      fragmentsRead, h, n := ControlledLoop(CurrentTerm(), TermOffset(), handler, h0, fragmentLimit);
    }

    /** The loop of `term.Read` and `BoundedPoll`. */
    method ReadLoop<H>(term: Term, startOffset: int, limitOffset: int, handler: FragmentHandler<H>, h0: H,
                       fragmentLimit: int)
      returns (offset: int, fragmentsRead: int, h: H, ghost n: nat)
      requires ValidTerm(term, termLength) && 0 <= startOffset && limitOffset <= termLength
      ensures n <= |Chain(term, startOffset, termLength)|
      ensures offset == startOffset + AlignedSum(Chain(term, startOffset, termLength)[..n]) && offset >= startOffset
      ensures ReadOutcome(Chain(term, startOffset, termLength), limitOffset - startOffset, fragmentLimit, handler, h0,
                          n, h, fragmentsRead)
    {
      hide AlignInt32, Aligned, Chain, ValidTerm, AlignedSum, DataFrames, Fold;
      FoldNothing(handler, h0, Chain(term, startOffset, termLength));
      ghost var fs := Chain(term, startOffset, termLength);
      h, n, fragmentsRead, offset := h0, 0, 0, startOffset;
      while fragmentsRead < fragmentLimit && offset < limitOffset
        invariant n <= |fs| && h == Fold(handler, h0, fs[..n]) && fragmentsRead == |DataFrames(fs[..n])|
        invariant fragmentsRead <= fragmentLimit || n == 0
        invariant offset == startOffset + AlignedSum(fs[..n]) && offset >= startOffset
        invariant forall m | 0 <= m < n :: AlignedSum(fs[..m]) < limitOffset - startOffset
        decreases |fs| - n
      {
        ChainStep(term, startOffset, termLength, n);
        if offset !in term || term[offset].length <= 0 {
          break;
        }
        TakeOneMore(fs, n);
        FoldOneMore(handler, h0, fs, n);
        var frame := term[offset];
        offset := offset + Aligned(frame);
        n := n + 1;
        if !frame.padding {
          fragmentsRead := fragmentsRead + 1;
          h := handler(h, frame);
        }
      }
      ChainStep(term, startOffset, termLength, n);
    }

    /** `BoundedPoll`. */
    method BoundedPoll<H>(handler: FragmentHandler<H>, h0: H, limitPosition: int, fragmentLimit: int)
      returns (fragmentsRead: int, h: H, ghost n: nat)
      requires Valid()
      modifies this`subscriberPosition, this`stores
      ensures isClosed ==> fragmentsRead == 0 && h == h0 && n == 0
      ensures n <= |old(Ahead())| && subscriberPosition == old(subscriberPosition) + AlignedSum(old(Ahead())[..n])
      ensures !isClosed ==>
                ReadOutcome(old(Ahead()),
                            LimitOffset(limitPosition, old(subscriberPosition), old(TermOffset()), termLength)
                            - old(TermOffset()),
                            fragmentLimit, handler, h0, n, h, fragmentsRead)
    {
      h, n, fragmentsRead := h0, 0, 0;
      if isClosed {
        return;
      }
      hide Chain, Pow2, ReadOutcome, AlignedSum;
      var initialPosition, initialOffset := subscriberPosition, TermOffset();
      var limitOffset := LimitOffset(limitPosition, initialPosition, initialOffset, termLength);
      var offset;
      offset, fragmentsRead, h, n := ReadLoop(CurrentTerm(), initialOffset, limitOffset, handler, h0, fragmentLimit);
      var resultingPosition := initialPosition + (offset - initialOffset);
      if resultingPosition > initialPosition {
        StorePosition(resultingPosition);
      }
    }

    /** `Poll`. */
    method Poll<H>(handler: FragmentHandler<H>, h0: H, fragmentLimit: int)
      returns (fragmentsRead: int, h: H, ghost n: nat)
      requires Valid()
      modifies this`subscriberPosition, this`stores
      ensures isClosed ==> fragmentsRead == 0 && h == h0 && n == 0
      ensures n <= |old(Ahead())| && subscriberPosition == old(subscriberPosition) + AlignedSum(old(Ahead())[..n])
      ensures !isClosed ==>
                ReadOutcome(old(Ahead()), termLength - old(TermOffset()), fragmentLimit, handler, h0, n, h,
                            fragmentsRead)
    {
      h, n, fragmentsRead := h0, 0, 0;
      if isClosed {
        return;
      }
      hide Chain, Pow2, ReadOutcome, AlignedSum;
      var position, termOffset := subscriberPosition, TermOffset();
      var offset;
      offset, fragmentsRead, h, n := ReadLoop(CurrentTerm(), termOffset, termLength, handler, h0, fragmentLimit);
      var newPosition := position + (offset - termOffset);
      if newPosition > position {
        StorePosition(newPosition);
      }
    }
  }
}

/** Every run of the ring buffer keeps the invariant and refines an unbounded FIFO queue. */
module ManyToOneProof {
  import opened Bits
  import opened CircularBuffer
  import opened ManyToOneRingBuffer

  // ---------------------------------------------------------------------------------------------
  // Arithmetic of a claim
  // ---------------------------------------------------------------------------------------------

  lemma AvailableExact(cap: int, tail: int, head: int)
    requires ValidCapacity(cap) && 0 <= tail - head <= TWO_31 + cap
    ensures Available(cap, tail, head) == cap - (tail - head)
  {
    ToInt32Nested(cap, tail - head);
  }

  /** The check passes without the space being there exactly when it is misjudged. */
  lemma CheckWrongIff(cap: int, tail: int, head: int, required: int)
    requires ValidCapacity(cap) && head <= tail
    ensures required <= Available(cap, tail, head) && required > cap - (tail - head)
       <==> Misjudged(cap, tail, head, required)
  {
    ToInt32Nested(cap, tail - head);
    var d := tail - head;
    ToInt32Congruent(cap - d, cap - d % TWO_32, -(d / TWO_32));
  }

  lemma RequiredBounds(cap: int, m: Message)
    requires ValidCapacity(cap) && ValidMessage(cap, m)
    ensures HEADER_LENGTH <= RecordLength(m) <= Required(m) < RecordLength(m) + 8
    ensures Required(m) % 8 == 0
    ensures Required(m) == HEADER_LENGTH + 8 * ChunkCount(m.payload)
  {
    RequiredIsHeaderPlusChunks(m);
  }

  /** A wrapping claim, checked against a possibly stale head index only, still ends before the head's next lap. */
  lemma WrappedClaimFits(cap: int, head: int, tail: int, required: int)
    requires cap > 0 && head <= tail && required > 0
    requires required + tail - head <= cap
    requires cap - Index(tail, cap) < required <= Index(head, cap)
    ensures tail + (cap - Index(tail, cap)) + required <= head + cap
  {
    var a := IndexDecompose(head, cap);
    var b := IndexDecompose(tail, cap);
    var hi, ti := Index(head, cap), Index(tail, cap);
    assert tail - head == (b - a) * cap + (ti - hi);
    if b - a >= 1 {
      // the head would have to lie at or beyond the end of the buffer
      MulAtLeast(b - a, cap);
    } else if b - a <= -1 {
      MulAtMost(b - a, cap);
    } else {
      assert tail - ti == head - hi;
    }
  }

  lemma MulAtLeast(k: int, c: int)
    requires k >= 1 && c > 0
    ensures k * c >= c
  {
  }

  lemma MulAtMost(k: int, c: int)
    requires k <= -1 && c > 0
    ensures k * c <= -c
  {
  }

  // ---------------------------------------------------------------------------------------------
  // Framing
  // ---------------------------------------------------------------------------------------------

  lemma {:induction false} RegionsOrdered(s: State, i: nat, j: nat)
    requires Contiguous(s) && i < j <= |s.regions|
    ensures s.regions[i].pos + s.regions[i].len <= Start(s, j)
    decreases j - i
  {
    if i + 1 < j {
      RegionsOrdered(s, i + 1, j);
    }
  }

  /** Unread regions lie in the window between the cursor and the tail. */
  lemma UnreadWithinWindow(cap: int, s: State, i: nat)
    requires cap > 0 && Tiled(cap, s) && s.consumed <= i < |s.regions|
    ensures s.cursor <= s.regions[i].pos && s.regions[i].pos + s.regions[i].len <= s.tail
  {
    hide Shaped;
    RegionsOrdered(s, i, |s.regions|);
    if s.consumed < i {
      RegionsOrdered(s, s.consumed, i);
    }
  }

  /** What a producer relies on survives any step that only moves head and tail forward and leaves its regions alone. */
  lemma ProducerStable(cap: int, s: State, s': State, p: Producer, pc: PC)
    requires cap > 0 && ProducerOk(cap, s, p, pc)
    requires s.head <= s'.head && s.tail <= s'.tail && |s.regions| <= |s'.regions|
    requires forall i | 0 <= i < |s.regions| && s.regions[i].owner == p :: s'.regions[i] == s.regions[i]
    ensures ProducerOk(cap, s', p, pc)
  {
  }

  /** Two memories agree on every word of a stretch. */
  ghost predicate Agree(cap: int, mem: Memory, mem': Memory, from: int, to: int)
    requires cap > 0
  {
    forall x {:trigger Index(x, cap)} | from <= x < to && x % 8 == 0 ::
      var at := Index(x, cap); (at in mem <==> at in mem') && (at in mem ==> mem[at] == mem'[at])
  }

  lemma ChunksUntouched(cap: int, mem: Memory, mem': Memory, r: Region, k: nat)
    requires cap > 0 && Shaped(cap, r) && r.kind.Record? && Agree(cap, mem, mem', r.pos, r.pos + r.len)
    requires ChunksInPlace(mem, Index(r.pos, cap) + HEADER_LENGTH, r.kind.msg.payload, k)
    ensures ChunksInPlace(mem', Index(r.pos, cap) + HEADER_LENGTH, r.kind.msg.payload, k)
  {
    hide Index, ChunkCount, Chunk;
    var at := Index(r.pos, cap) + HEADER_LENGTH;
    forall j | 0 <= j < k
      ensures at + 8 * j in mem' && mem'[at + 8 * j] == Data(Chunk(r.kind.msg.payload, j))
    {
      assert at + 8 * j in mem;
      IndexAdvance(r.pos, HEADER_LENGTH + 8 * j, cap);
      assert Index(r.pos + HEADER_LENGTH + 8 * j, cap) == at + 8 * j;
    }
  }

  lemma RegionUntouched(cap: int, mem: Memory, mem': Memory, r: Region)
    requires cap > 0 && Shaped(cap, r) && Agree(cap, mem, mem', r.pos, r.pos + r.len) && InMemory(cap, mem, r)
    ensures InMemory(cap, mem', r)
  {
    assert Index(r.pos, cap) in mem <==> Index(r.pos, cap) in mem';
    if r.kind.Record? && r.stage.Open? {
      ChunksUntouched(cap, mem, mem', r, r.stage.chunks);
    }
    if r.kind.Record? && r.stage.Done? {
      ChunksUntouched(cap, mem, mem', r, ChunkCount(r.kind.msg.payload));
    }
  }

  /** A store at position y is invisible to a stretch that avoids y inside one lap. */
  lemma StoreElsewhere(cap: int, mem: Memory, y: int, w: Word, from: int, to: int)
    requires cap > 0 && (y < from || to <= y) && from - y < cap && y - from < cap && to - y <= cap && y - to < cap
    ensures Agree(cap, mem, mem[Index(y, cap) := w], from, to)
    ensures Agree(cap, mem, mem - {Index(y, cap)}, from, to)
  {
    forall x | from <= x < to && x % 8 == 0
      ensures Index(x, cap) != Index(y, cap)
    {
      IndexInjective(x, y, cap);
    }
  }

  // ---------------------------------------------------------------------------------------------
  // Steps that touch no message memory
  // ---------------------------------------------------------------------------------------------

  lemma LocalStepKeepsInv(cap: int, s: State, p: Producer, pc: PC, headCache: int)
    requires Inv(cap, s) && HeadOk(s, headCache) && ProducerOk(cap, s, p, pc)
    ensures Inv(cap, Goto(s.(headCache := headCache), p, pc))
  {
    hide Index, Required, Shaped, InMemory;
    var s' := Goto(s.(headCache := headCache), p, pc);
    forall q | q in s'.procs
      ensures ProducerOk(cap, s', q, s'.procs[q])
    {
      ProducerStable(cap, s, s', q, s'.procs[q]);
    }
  }

  lemma CheckWrapOk(cap: int, s: State, p: Producer, m: Message, head: int, tail: int)
    requires cap > 0 && ValidMessage(cap, m) && ReadEarlier(s, head, tail)
    ensures ProducerOk(cap, s, p, CheckWrap(cap, m, head, tail))
  {
  }

  /** All of `claimCapacity` before the compare-and-set. */
  lemma ClaimingKeepsInv(cap: int, s: State, p: Producer)
    requires Inv(cap, s) && p in s.procs
    requires s.procs[p].ReadHeadCache? || s.procs[p].ReadTail? || s.procs[p].ReadHead? || s.procs[p].StoreHeadCache?
          || s.procs[p].ReadHeadForWrap? || s.procs[p].StoreHeadCacheForWrap?
    ensures Inv(cap, Produce(cap, s, p))
  {
    hide Index, Required, Inv, Available;
    InvProducer(cap, s, p);
    InvOrdered(cap, s);
    var s' := Produce(cap, s, p);
    match s.procs[p]
    case ReadHeadCache(m) =>
      LocalStepKeepsInv(cap, s, p, s'.procs[p], s.headCache);
    case ReadTail(m, head) =>
      if Required(m) <= Available(cap, s.tail, head) {
        CheckWrapOk(cap, s, p, m, head, s.tail);
      }
      LocalStepKeepsInv(cap, s, p, s'.procs[p], s.headCache);
    case ReadHead(m, _, tail) =>
      LocalStepKeepsInv(cap, s, p, s'.procs[p], s.headCache);
    case StoreHeadCache(m, head, tail) =>
      CheckWrapOk(cap, s, p, m, head, tail);
      LocalStepKeepsInv(cap, s, p, s'.procs[p], head);
    case ReadHeadForWrap(m, head, tail) =>
      LocalStepKeepsInv(cap, s, p, s'.procs[p], s.headCache);
    case StoreHeadCacheForWrap(m, head, tail) =>
      LocalStepKeepsInv(cap, s, p, s'.procs[p], head);
  }

  // ---------------------------------------------------------------------------------------------
  // The compare-and-set of the tail
  // ---------------------------------------------------------------------------------------------

  /** A claim that wins the compare-and-set is aligned and does not cross the buffer end. */
  lemma ClaimIsShaped(cap: int, s: State, p: Producer)
    requires Inv(cap, s) && p in s.procs && s.procs[p].SwapTail? && s.procs[p].tail == s.tail
    ensures var pc := s.procs[p];
            && pc.padding >= 0 && pc.padding % 8 == 0
            && (pc.padding > 0 ==> pc.padding >= 8 && Index(s.tail, cap) + pc.padding == cap
                                   && Index(s.tail + pc.padding, cap) == 0)
            && Index(s.tail + pc.padding, cap) + Required(pc.m) <= cap
            && Required(pc.m) >= 8 && Required(pc.m) % 8 == 0
  {
    hide Index, Required, Inv;
    InvProducer(cap, s, p);
    InvOrdered(cap, s);
    var SwapTail(m, head, tail, padding) := s.procs[p];
    RequiredBounds(cap, m);
    if padding != 0 {
      PaddingToEnd(cap, tail);
    }
  }

  /** Padding up to the buffer end is a positive multiple of 8, and a record after it starts at index 0. */
  lemma PaddingToEnd(cap: int, tail: int)
    requires ValidCapacity(cap) && 0 <= tail && tail % 8 == 0
    ensures var padding := cap - Index(tail, cap);
            padding >= 8 && padding % 8 == 0 && Index(tail + padding, cap) == 0
  {
    hide Index;
    IndexWrap(tail, cap);
    IndexAligned(tail, cap);
  }

  lemma NewRegionsShaped(cap: int, p: Producer, m: Message, tail: int, padding: int)
    requires ValidCapacity(cap) && ValidMessage(cap, m) && 0 <= tail && tail % 8 == 0
    requires padding >= 0 && padding % 8 == 0
    requires padding > 0 ==> Index(tail, cap) + padding == cap
    requires Index(tail + padding, cap) + Required(m) <= cap
    ensures forall r | r in NewRegions(p, m, tail, padding) :: Shaped(cap, r)
  {
    hide Index;
    RequiredBounds(cap, m);
  }

  /** Extending the tail with fresh regions keeps them contiguous. */
  lemma ExtensionContiguous(s: State, s': State, p: Producer, m: Message, padding: int)
    requires Contiguous(s) && padding >= 0 && Required(m) > 0
    requires s'.regions == s.regions + NewRegions(p, m, s.tail, padding) && s'.tail == s.tail + padding + Required(m)
    ensures Contiguous(s')
    ensures forall i | 0 <= i <= |s.regions| :: Start(s', i) == Start(s, i)
  {
    hide Required;
    forall i {:trigger s'.regions[i]} | 0 <= i < |s'.regions|
      ensures s'.regions[i].len > 0 && s'.regions[i].pos + s'.regions[i].len == Start(s', i + 1)
    {
      if i < |s.regions| {
        assert s'.regions[i] == s.regions[i];
      }
    }
  }

  lemma SwapMemoryOk(cap: int, s: State, s': State, p: Producer, m: Message, padding: int)
    requires Inv(cap, s) && ValidMessage(cap, m) && padding >= 0 && padding % 8 == 0 && Required(m) >= 8
    requires s'.regions == s.regions + NewRegions(p, m, s.tail, padding) && s'.tail == s.tail + padding + Required(m)
    requires s'.mem == s.mem && s'.head == s.head && s'.zeroed == s.zeroed && s'.consumed == s.consumed
    requires s'.tail <= s.head + cap
    ensures MemoryOk(cap, s')
  {
    hide Index, Required, Shaped, ProducerOk, Messages, Contiguous, InMemory, EmptyWords;
    EmptyWithin(cap, s.mem, s.tail, s.head + cap, s'.tail);
    forall i | s'.consumed <= i < |s'.regions|
      ensures InMemory(cap, s'.mem, s'.regions[i])
    {
      if i < |s.regions| {
        assert InMemory(cap, s.mem, s.regions[i]);
      } else {
        ClaimedInMemory(cap, s.mem, s.tail, s.head + cap, s'.regions[i]);
      }
    }
  }

  lemma EmptyWithin(cap: int, mem: Memory, from: int, to: int, start: int)
    requires cap > 0 && EmptyWords(cap, mem, from, to) && from <= start
    ensures EmptyWords(cap, mem, start, to)
  {
    hide Index;
  }

  lemma ClaimedInMemory(cap: int, mem: Memory, from: int, to: int, r: Region)
    requires cap > 0 && EmptyWords(cap, mem, from, to) && from <= r.pos < to && r.pos % 8 == 0 && r.stage == Claimed
    ensures InMemory(cap, mem, r)
  {
    hide Index;
    assert Index(r.pos, cap) !in mem;
  }

  /** The state right after a winning compare-and-set. */
  ghost predicate Swapped(cap: int, s: State, p: Producer, s': State)
    requires cap > 0
  {
    && p in s.procs && s.procs[p].SwapTail? && s.procs[p].tail == s.tail
    && InFlight(s, s.procs[p]) && s' == Produce(cap, s, p)
  }

  lemma SwapTiled(cap: int, s: State, p: Producer, s': State)
    requires Inv(cap, s) && Swapped(cap, s, p, s')
    ensures Tiled(cap, s')
  {
    hide Index, Required, Shaped, InMemory, ToInt32, MemoryOk, Messages;
    assert ProducerOk(cap, s, p, s.procs[p]);
    var SwapTail(m, head, tail, padding) := s.procs[p];
    ClaimIsShaped(cap, s, p);
    NewRegionsShaped(cap, p, m, tail, padding);
    ExtensionContiguous(s, s', p, m, padding);
    forall i | 0 <= i < |s'.regions|
      ensures Shaped(cap, s'.regions[i])
    {
      if i >= |s.regions| {
        assert s'.regions[i] in NewRegions(p, m, tail, padding);
      }
    }
  }

  lemma SwapProducersOk(cap: int, s: State, p: Producer, s': State)
    requires Inv(cap, s) && Swapped(cap, s, p, s')
    ensures forall q | q in s'.procs :: ProducerOk(cap, s', q, s'.procs[q])
  {
    hide Index, Required, Shaped, InMemory, ToInt32, MemoryOk, Messages, Contiguous;
    assert ProducerOk(cap, s, p, s.procs[p]);
    ClaimIsShaped(cap, s, p);
    forall q | q in s'.procs
      ensures ProducerOk(cap, s', q, s'.procs[q])
    {
      if q != p {
        ProducerStable(cap, s, s', q, s'.procs[q]);
      }
    }
  }

  lemma ProducerMessageValid(cap: int, s: State, p: Producer, pc: PC)
    requires cap > 0 && ProducerOk(cap, s, p, pc)
    ensures ValidMessage(cap, pc.m)
  {
  }

  lemma SwapKeepsInv(cap: int, s: State, p: Producer)
    requires Inv(cap, s) && p in s.procs && s.procs[p].SwapTail? && !Overrun(cap, s, Step(p))
    ensures Inv(cap, Produce(cap, s, p))
  {
    hide Index, Required, ToInt32, Messages, Tiled, MemoryOk;
    var s' := Produce(cap, s, p);
    InvProducer(cap, s, p);
    if s.procs[p].tail != s.tail {
      LocalStepKeepsInv(cap, s, p, s'.procs[p], s.headCache);
    } else {
      WonSwapKeepsInv(cap, s, p, s');
    }
  }

  lemma SwapEffect(cap: int, s: State, p: Producer, s': State)
    requires cap > 0 && Swapped(cap, s, p, s')
    ensures var pc := s.procs[p]; var rs := NewRegions(p, pc.m, s.tail, pc.padding);
            s' == s.(tail := s.tail + Required(pc.m) + pc.padding, regions := s.regions + rs, procs := s'.procs)
  {
    hide Index, Required;
  }

  lemma WonSwapKeepsInv(cap: int, s: State, p: Producer, s': State)
    requires Inv(cap, s) && Swapped(cap, s, p, s') && !Overrun(cap, s, Step(p))
    ensures Inv(cap, s')
  {
    hide Index, Required, ToInt32, Messages, Tiled, MemoryOk, ProducerOk, Swapped, NewRegions;
    SwapEffect(cap, s, p, s');
    SwapsItsOwn(cap, s, p, s');
    ClaimIsShaped(cap, s, p);
    SwapTiled(cap, s, p, s');
    InvProducer(cap, s, p);
    ProducerMessageValid(cap, s, p, s.procs[p]);
    SwapMemoryOk(cap, s, s', p, s.procs[p].m, s.procs[p].padding);
    SwapProducersOk(cap, s, p, s');
    ConsumedWithinRegions(cap, s);
    assert s'.regions[..s'.consumed] == s.regions[..s.consumed];
    assert Ordered(cap, s') by { SumOfMultiples(s.tail, Required(s.procs[p].m), s.procs[p].padding); }
  }

  lemma SumOfMultiples(a: int, b: int, c: int)
    requires a % 8 == 0 && b % 8 == 0 && c % 8 == 0
    ensures (a + b + c) % 8 == 0
  {
  }

  lemma SwapsItsOwn(cap: int, s: State, p: Producer, s': State)
    requires cap > 0 && Swapped(cap, s, p, s')
    ensures p in s.procs && s.procs[p].SwapTail? && s.procs[p].tail == s.tail
  {
  }

  lemma ConsumedWithinRegions(cap: int, s: State)
    requires cap > 0 && Tiled(cap, s)
    ensures s.consumed <= |s.regions|
  {
  }

  // ---------------------------------------------------------------------------------------------
  // Stores into a claimed region
  // ---------------------------------------------------------------------------------------------

  /** A producer may store anywhere in a region it owns and has not finished. */
  ghost predicate StoresInOwnRegion(cap: int, s: State, p: Producer, r: nat, y: int)
    requires cap > 0
  {
    && r < |s.regions| && s.regions[r].owner == p && s.regions[r].stage != Done
    && s.regions[r].pos <= y < s.regions[r].pos + s.regions[r].len && y % 8 == 0
  }

  lemma UnfinishedIsUnread(cap: int, s: State, r: nat)
    requires Inv(cap, s) && r < |s.regions| && s.regions[r].stage != Done
    ensures s.consumed <= r
  {
  }

  lemma OtherRegionUntouched(cap: int, s: State, p: Producer, r: nat, y: int, w: Word, i: nat)
    requires Inv(cap, s) && StoresInOwnRegion(cap, s, p, r, y) && s.consumed <= i < |s.regions| && i != r
    ensures InMemory(cap, s.mem[Index(y, cap) := w], s.regions[i])
  {
    hide Index, Required, InMemory, Messages, ProducerOk;
    UnfinishedIsUnread(cap, s, r);
    UnreadWithinWindow(cap, s, r);
    UnreadWithinWindow(cap, s, i);
    if i < r { RegionsOrdered(s, i, r); } else { RegionsOrdered(s, r, i); }
    var x := s.regions[i];
    StoreElsewhere(cap, s.mem, y, w, x.pos, x.pos + x.len);
    RegionUntouched(cap, s.mem, s.mem[Index(y, cap) := w], x);
  }

  lemma FreeWordsUntouched(cap: int, s: State, p: Producer, r: nat, y: int, w: Word)
    requires Inv(cap, s) && StoresInOwnRegion(cap, s, p, r, y)
    ensures EmptyWords(cap, s.mem[Index(y, cap) := w], s.tail, s.head + cap)
    ensures EmptyWords(cap, s.mem[Index(y, cap) := w], s.head, s.zeroed)
  {
    hide Index, Required, InMemory, Messages, ProducerOk, Shaped;
    UnfinishedIsUnread(cap, s, r);
    UnreadWithinWindow(cap, s, r);
    if s.tail < s.head + cap {
      StoreElsewhere(cap, s.mem, y, w, s.tail, s.head + cap);
    }
    StoreElsewhere(cap, s.mem, y, w, s.head, s.zeroed);
  }

  lemma StoreMemoryOk(cap: int, s: State, p: Producer, r: nat, y: int, w: Word, stage: Stage)
    requires Inv(cap, s) && StoresInOwnRegion(cap, s, p, r, y)
    requires InMemory(cap, s.mem[Index(y, cap) := w], s.regions[r].(stage := stage))
    ensures MemoryOk(cap, PutWord(s, Index(y, cap), w, r, stage))
  {
    hide Index, Required, InMemory, Messages, ProducerOk, Shaped, EmptyWords, Contiguous;
    UnfinishedIsUnread(cap, s, r);
    FreeWordsUntouched(cap, s, p, r, y, w);
    var s' := PutWord(s, Index(y, cap), w, r, stage);
    forall i | s'.consumed <= i < |s'.regions|
      ensures InMemory(cap, s'.mem, s'.regions[i])
    {
      if i != r {
        OtherRegionUntouched(cap, s, p, r, y, w, i);
      }
    }
  }

  lemma StoreTiled(cap: int, s: State, r: nat, at: int, w: Word, stage: Stage)
    requires cap > 0 && Tiled(cap, s) && r < |s.regions|
    ensures Tiled(cap, PutWord(s, at, w, r, stage))
  {
    hide Index, Required;
    var s' := PutWord(s, at, w, r, stage);
    forall i {:trigger s'.regions[i]} | 0 <= i < |s'.regions|
      ensures s'.regions[i].len > 0 && s'.regions[i].pos + s'.regions[i].len == Start(s', i + 1)
      ensures Shaped(cap, s'.regions[i])
    {
      assert Shaped(cap, s.regions[i]);
      assert Start(s', i + 1) == Start(s, i + 1);
    }
  }

  lemma StoreKeepsInv(cap: int, s: State, p: Producer, r: nat, y: int, w: Word, stage: Stage, pc: PC)
    requires Inv(cap, s) && StoresInOwnRegion(cap, s, p, r, y)
    requires InMemory(cap, s.mem[Index(y, cap) := w], s.regions[r].(stage := stage))
    requires ProducerOk(cap, PutWord(s, Index(y, cap), w, r, stage), p, pc)
    ensures Inv(cap, Goto(PutWord(s, Index(y, cap), w, r, stage), p, pc))
  {
    hide Index, Required, InMemory, Messages, Tiled, ProducerOk;
    UnfinishedIsUnread(cap, s, r);
    var s1 := PutWord(s, Index(y, cap), w, r, stage);
    var s' := Goto(s1, p, pc);
    StoreMemoryOk(cap, s, p, r, y, w, stage);
    StoreTiled(cap, s, r, Index(y, cap), w, stage);
    TiledDepends(cap, s1, s');
    assert s'.regions[..s'.consumed] == s.regions[..s.consumed];
    forall q | q in s'.procs
      ensures ProducerOk(cap, s', q, s'.procs[q])
    {
      ProducerStable(cap, if q == p then s1 else s, s', q, s'.procs[q]);
    }
  }

  /** Only the regions, the tail and the consumer's cursor matter for the tiling. */
  lemma TiledDepends(cap: int, s: State, s': State)
    requires cap > 0 && Tiled(cap, s)
    requires s'.regions == s.regions && s'.tail == s.tail && s'.cursor == s.cursor && s'.consumed == s.consumed
    ensures Tiled(cap, s')
  {
    hide Shaped;
    assert forall i :: Start(s', i) == Start(s, i);
  }

  lemma InvOrdered(cap: int, s: State)
    requires Inv(cap, s)
    ensures ValidCapacity(cap) && Ordered(cap, s)
  {
  }

  /** What the invariant says about one producer. */
  lemma InvProducer(cap: int, s: State, p: Producer)
    requires Inv(cap, s) && p in s.procs
    ensures ValidCapacity(cap) && ProducerOk(cap, s, p, s.procs[p])
  {
  }

  /** What the invariant says about one region its owner has not finished. */
  lemma InvRegion(cap: int, s: State, r: nat)
    requires Inv(cap, s) && r < |s.regions| && s.regions[r].stage != Done
    ensures ValidCapacity(cap) && Shaped(cap, s.regions[r]) && InMemory(cap, s.mem, s.regions[r])
  {
  }

  lemma PutPaddingKeepsInv(cap: int, s: State, p: Producer)
    requires Inv(cap, s) && p in s.procs && s.procs[p].PutPadding? && InFlight(s, s.procs[p])
    ensures Inv(cap, Produce(cap, s, p))
  {
    hide Inv, Index, Required, ChunksInPlace;
    InvProducer(cap, s, p);
    var PutPadding(m, r, tailIndex, padding) := s.procs[p];
    InvRegion(cap, s, r);
    StoreKeepsInv(cap, s, p, r, s.regions[r].pos, Header(padding, PADDING_TYPE), Done, PutHeader(m, r + 1, 0));
  }

  lemma PutHeaderKeepsInv(cap: int, s: State, p: Producer)
    requires Inv(cap, s) && p in s.procs && s.procs[p].PutHeader? && InFlight(s, s.procs[p])
    ensures Inv(cap, Produce(cap, s, p))
  {
    hide Inv, Index, Required;
    InvProducer(cap, s, p);
    var PutHeader(m, r, i) := s.procs[p];
    InvRegion(cap, s, r);
    StoreKeepsInv(cap, s, p, r, s.regions[r].pos, Header(-RecordLength(m), m.typ), Open(0),
                  Produce(cap, s, p).procs[p]);
  }

  lemma NextChunkInMemory(cap: int, mem: Memory, r: Region, k: nat)
    requires cap > 0 && Shaped(cap, r) && InMemory(cap, mem, r) && r.kind.Record? && r.stage == Open(k)
    requires k < ChunkCount(r.kind.msg.payload)
    ensures var y := r.pos + HEADER_LENGTH + 8 * k;
            && y < r.pos + r.len && y % 8 == 0
            && Index(y, cap) == Index(r.pos, cap) + HEADER_LENGTH + 8 * k
            && InMemory(cap, mem[Index(y, cap) := Data(Chunk(r.kind.msg.payload, k))], r.(stage := Open(k + 1)))
  {
    hide Index, Required, Chunk, ChunkCount;
    IndexAdvance(r.pos, HEADER_LENGTH + 8 * k, cap);
  }

  lemma PutPayloadKeepsInv(cap: int, s: State, p: Producer)
    requires Inv(cap, s) && p in s.procs && s.procs[p].PutPayload? && InFlight(s, s.procs[p])
    requires s.procs[p].chunks < ChunkCount(s.procs[p].m.payload)
    ensures Inv(cap, Produce(cap, s, p))
  {
    hide Inv, Index, Required, InMemory, Chunk, ChunkCount;
    InvProducer(cap, s, p);
    var PutPayload(m, r, i, k) := s.procs[p];
    InvRegion(cap, s, r);
    NextChunkInMemory(cap, s.mem, s.regions[r], k);
    var y := s.regions[r].pos + HEADER_LENGTH + 8 * k;
    StoreKeepsInv(cap, s, p, r, y, Data(Chunk(m.payload, k)), Open(k + 1), Produce(cap, s, p).procs[p]);
  }

  lemma PutLengthKeepsInv(cap: int, s: State, p: Producer)
    requires Inv(cap, s) && p in s.procs && s.procs[p].PutLength? && InFlight(s, s.procs[p])
    ensures Inv(cap, Produce(cap, s, p))
  {
    hide Inv, Index, Required, Chunk, ChunkCount;
    InvProducer(cap, s, p);
    var PutLength(m, r, i) := s.procs[p];
    InvRegion(cap, s, r);
    StoreKeepsInv(cap, s, p, r, s.regions[r].pos, Header(RecordLength(m), m.typ), Done, Returned(m, true, r));
  }

  lemma ProducerStepKeepsInv(cap: int, s: State, p: Producer)
    requires Inv(cap, s) && !Overrun(cap, s, Step(p)) && Enabled(cap, s, Step(p))
    ensures Inv(cap, Produce(cap, s, p))
  {
    hide Inv, Produce, Overrun;
    match s.procs[p]
    case SwapTail(_, _, _, _) => SwapKeepsInv(cap, s, p);
    case PutPadding(_, _, _, _) => PutPaddingKeepsInv(cap, s, p);
    case PutHeader(_, _, _) => PutHeaderKeepsInv(cap, s, p);
    case PutPayload(_, _, _, _) => PutPayloadKeepsInv(cap, s, p);
    case PutLength(_, _, _) => PutLengthKeepsInv(cap, s, p);
    case _ => ClaimingKeepsInv(cap, s, p);
  }

  // ---------------------------------------------------------------------------------------------
  // The consumer
  // ---------------------------------------------------------------------------------------------

  /** The word at the cursor is either empty or the header of the next region. */
  lemma NextRegionInMemory(cap: int, s: State)
    requires Inv(cap, s) && s.cursor < s.head + cap
    ensures ValidCapacity(cap)
    ensures s.consumed == |s.regions| ==> Index(s.cursor, cap) !in s.mem
    ensures s.consumed < |s.regions| ==>
              && s.regions[s.consumed].pos == s.cursor && Shaped(cap, s.regions[s.consumed])
              && InMemory(cap, s.mem, s.regions[s.consumed])
    ensures s.consumed <= |s.regions|
  {
    hide InMemory, Shaped, Index, Contiguous, ProducerOk, Messages;
  }

  /** Whatever positive length the consumer sees at its cursor, it is the finished header of the next region. */
  lemma ReadSeesNextRegion(cap: int, s: State, length: int, typ: int)
    requires Inv(cap, s) && Enabled(cap, s, Read(length, typ))
    ensures s.consumed < |s.regions| && s.regions[s.consumed].stage == Done
    ensures AlignInt32(length, 8) == s.regions[s.consumed].len
    ensures match s.regions[s.consumed].kind
            case Padding => typ == PADDING_TYPE
            case Record(m) => typ != PADDING_TYPE && Decode(s.mem, Index(s.cursor, cap), length, typ) == m
  {
    hide Inv, Index, Chunk, ChunkCount, ReadPayload;
    NextRegionInMemory(cap, s);
    var r := s.regions[s.consumed];
    if r.kind.Record? {
      RequiredBounds(cap, r.kind.msg);
      if r.stage == Done {
        ReadBack(s.mem, Index(r.pos, cap) + HEADER_LENGTH, r.kind.msg.payload);
      }
    }
  }

  lemma ReadTiled(cap: int, s: State, s': State)
    requires cap > 0 && Tiled(cap, s) && s.consumed < |s.regions|
    requires s'.regions == s.regions && s'.tail == s.tail
    requires s'.consumed == s.consumed + 1 && s'.cursor == s.cursor + s.regions[s.consumed].len
    ensures Tiled(cap, s') && s.cursor < s'.cursor <= s'.tail && s'.cursor % 8 == s.cursor % 8
  {
    hide Index, Required, Shaped;
    RegionsOrdered(s, s.consumed, |s.regions|);
    assert Contiguous(s') by { assert forall i :: Start(s', i) == Start(s, i); }
    RegionStep(cap, s.regions[s.consumed], s.cursor);
  }

  lemma RegionStep(cap: int, r: Region, x: int)
    requires cap > 0 && Shaped(cap, r)
    ensures r.len >= 8 && (x + r.len) % 8 == x % 8
  {
    hide Index, Required;
  }

  lemma ReadKeepsInv(cap: int, s: State, length: int, typ: int)
    requires Inv(cap, s) && Enabled(cap, s, Read(length, typ))
    ensures Inv(cap, Next(cap, s, Read(length, typ)))
  {
    hide Index, InMemory, AlignInt32, Required, Decode, Shaped, EmptyWords, Contiguous;
    ReadSeesNextRegion(cap, s, length, typ);
    var s' := Next(cap, s, Read(length, typ));
    ReadTiled(cap, s, s');
    assert s'.regions[..s'.consumed][..s.consumed] == s.regions[..s.consumed];
    forall q | q in s'.procs
      ensures ProducerOk(cap, s', q, s'.procs[q])
    {
      ProducerStable(cap, s, s', q, s'.procs[q]);
    }
  }

  /** Clearing a word leaves empty words empty. */
  lemma ZeroEmptyWords(cap: int, mem: Memory, from: int, to: int, y: int)
    requires cap > 0 && EmptyWords(cap, mem, from, to)
    ensures EmptyWords(cap, mem - {Index(y, cap)}, from, to)
  {
    hide Index;
  }

  lemma OneMoreEmptyWord(cap: int, mem: Memory, from: int, to: int)
    requires cap > 0 && EmptyWords(cap, mem, from, to) && Index(to, cap) !in mem && to % 8 == 0
    ensures EmptyWords(cap, mem, from, to + 8)
  {
    hide Index;
  }

  lemma ZeroMemoryOk(cap: int, s: State)
    requires Inv(cap, s) && s.zeroed < s.cursor
    ensures MemoryOk(cap, s.(mem := s.mem - {Index(s.zeroed, cap)}, zeroed := s.zeroed + 8))
  {
    hide Index, InMemory, Required, Messages, Contiguous, ProducerOk, EmptyWords;
    var s' := s.(mem := s.mem - {Index(s.zeroed, cap)}, zeroed := s.zeroed + 8);
    ZeroEmptyWords(cap, s.mem, s.tail, s.head + cap, s.zeroed);
    ZeroEmptyWords(cap, s.mem, s.head, s.zeroed, s.zeroed);
    OneMoreEmptyWord(cap, s'.mem, s.head, s.zeroed);
    forall i | s'.consumed <= i < |s'.regions|
      ensures InMemory(cap, s'.mem, s'.regions[i])
    {
      var r := s.regions[i];
      UnreadWithinWindow(cap, s, i);
      StoreElsewhere(cap, s.mem, s.zeroed, Header(0, 0), r.pos, r.pos + r.len);
      RegionUntouched(cap, s.mem, s'.mem, r);
    }
  }

  lemma NextMultiple(x: int, y: int)
    requires x < y && x % 8 == 0 && y % 8 == 0
    ensures x + 8 <= y && (x + 8) % 8 == 0
  {
  }

  lemma ZeroKeepsInv(cap: int, s: State)
    requires Inv(cap, s) && Enabled(cap, s, Zero)
    ensures Inv(cap, Next(cap, s, Zero))
  {
    hide Index, InMemory, Required, Messages, MemoryOk, Tiled, ProducerOk;
    var s' := Next(cap, s, Zero);
    ZeroMemoryOk(cap, s);
    assert Ordered(cap, s') by { NextMultiple(s.zeroed, s.cursor); }
    TiledDepends(cap, s, s');
    forall q | q in s'.procs
      ensures ProducerOk(cap, s', q, s'.procs[q])
    {
      ProducerStable(cap, s, s', q, s'.procs[q]);
    }
  }

  /** Space behind the cursor is zeroed before it is released, so the next lap starts from empty words. */
  lemma ReleasedSpaceIsEmpty(cap: int, s: State)
    requires Inv(cap, s) && s.zeroed == s.cursor
    ensures EmptyWords(cap, s.mem, s.tail, s.cursor + cap)
  {
    hide Index, InMemory, Required, Messages, Shaped, Contiguous, ProducerOk, EmptyWords;
    NextLapIsEmpty(cap, s.mem, s.head, s.cursor, s.tail);
  }

  lemma NextLapIsEmpty(cap: int, mem: Memory, head: int, cursor: int, tail: int)
    requires ValidCapacity(cap) && EmptyWords(cap, mem, tail, head + cap) && EmptyWords(cap, mem, head, cursor)
    ensures EmptyWords(cap, mem, tail, cursor + cap)
  {
    hide Index;
    forall x {:trigger Index(x, cap)} | tail <= x < cursor + cap && x % 8 == 0
      ensures Index(x, cap) !in mem
    {
      if head + cap <= x {
        IndexLap(x, cap);
        assert (x - cap) % 8 == 0;
      }
    }
  }

  lemma ReleaseKeepsInv(cap: int, s: State)
    requires Inv(cap, s) && Enabled(cap, s, Release)
    ensures Inv(cap, Next(cap, s, Release))
  {
    hide Index, InMemory, Required, Messages, Shaped, EmptyWords;
    var s' := Next(cap, s, Release);
    ReleasedSpaceIsEmpty(cap, s);
    assert EmptyWords(cap, s'.mem, s'.head, s'.zeroed) by { EmptyStretch(cap, s'.mem, s'.head); }
    assert Contiguous(s') by { assert forall i :: Start(s', i) == Start(s, i); }
    forall q | q in s'.procs
      ensures ProducerOk(cap, s', q, s'.procs[q])
    {
      ProducerStable(cap, s, s', q, s'.procs[q]);
    }
  }

  lemma EmptyStretch(cap: int, mem: Memory, x: int)
    requires cap > 0
    ensures EmptyWords(cap, mem, x, x)
  {
  }

  lemma CallKeepsInv(cap: int, s: State, p: Producer, m: Message)
    requires Inv(cap, s) && Enabled(cap, s, Call(p, m))
    ensures Inv(cap, Next(cap, s, Call(p, m)))
  {
    hide Index, InMemory, Required, Messages, Shaped, MemoryOk, Tiled;
    if ValidMessage(cap, m) {
      LocalStepKeepsInv(cap, s, p, ReadHeadCache(m), s.headCache);
    }
  }

  /** A winning claim that is no overrun, and every other step, keeps the invariant. */
  lemma StepKeepsInv(cap: int, s: State, l: Label)
    requires Inv(cap, s) && cap > 0 && Enabled(cap, s, l) && !Overrun(cap, s, l)
    ensures Inv(cap, Next(cap, s, l))
  {
    hide Inv, Overrun, Produce;
    match l
    case Call(p, m) => CallKeepsInv(cap, s, p, m);
    case Step(p) => ProducerStepKeepsInv(cap, s, p);
    case Read(length, typ) => ReadKeepsInv(cap, s, length, typ);
    case Zero => ZeroKeepsInv(cap, s);
    case Release => ReleaseKeepsInv(cap, s);
  }

  /** After an overrun the claims cover more than the buffer holds. */
  lemma OverrunPassesHead(cap: int, s: State, l: Label)
    requires cap > 0 && Enabled(cap, s, l) && Overrun(cap, s, l)
    ensures Next(cap, s, l).tail > Next(cap, s, l).head + cap
  {
    hide Index, Required;
  }

  /** A step of a producer or of the consumer keeps the invariant if and only if it is no overrun. */
  lemma StepKeepsInvIff(cap: int, s: State, l: Label)
    requires Inv(cap, s) && cap > 0 && Enabled(cap, s, l)
    ensures Inv(cap, Next(cap, s, l)) <==> !Overrun(cap, s, l)
  {
    hide Inv, Overrun, Next, Enabled;
    if Overrun(cap, s, l) {
      OverrunPassesHead(cap, s, l);
      if Inv(cap, Next(cap, s, l)) {
        InvOrdered(cap, Next(cap, s, l));
      }
    } else {
      StepKeepsInv(cap, s, l);
    }
  }

  // ---------------------------------------------------------------------------------------------
  // What the capacity check is for
  // ---------------------------------------------------------------------------------------------

  /** The producer has passed the capacity check and has not yet tried to swap the tail. */
  predicate Checked(pc: PC) {
    pc.StoreHeadCache? || pc.ReadHeadForWrap? || pc.StoreHeadCacheForWrap? || pc.SwapTail?
  }

  /** If the tail has not moved since it was read, the claim fits behind the held head. */
  ghost predicate Fits(cap: int, tail: int, pc: PC) {
    Checked(pc) && pc.tail == tail ==> Required(pc.m) + tail - pc.head <= cap
  }

  ghost predicate AllFit(cap: int, s: State) {
    forall p | p in s.procs :: Fits(cap, s.tail, s.procs[p])
  }

  /** A producer that is not misled checks its claim correctly. */
  lemma CheckedClaimFits(cap: int, s: State, p: Producer)
    requires Inv(cap, s) && Enabled(cap, s, Step(p)) && !Misled(cap, s, Step(p)) && Fits(cap, s.tail, s.procs[p])
    requires !s.procs[p].SwapTail?
    ensures Fits(cap, s.tail, Produce(cap, s, p).procs[p])
  {
    hide Index, Required, Inv, Misjudged, Available, RecordLength, ChunkCount;
    InvProducer(cap, s, p);
    InvOrdered(cap, s);
    match s.procs[p]
    case ReadTail(m, head) => CheckWrongIff(cap, s.tail, head, Required(m));
    case ReadHead(m, _, tail) =>
      if tail == s.tail {
        AvailableExact(cap, tail, s.head);
      }
    case _ =>
  }

  /** Only a winning swap moves the tail, and past every tail that was read before. */
  lemma StepKeepsAllFit(cap: int, s: State, l: Label)
    requires Inv(cap, s) && cap > 0 && Enabled(cap, s, l) && !Misled(cap, s, l) && AllFit(cap, s)
    ensures AllFit(cap, Next(cap, s, l))
  {
    hide Index, Required, Inv, Misled, Available, RecordLength, AlignInt32, Decode;
    var s' := Next(cap, s, l);
    if l.Step? && !s.procs[l.p].SwapTail? {
      CheckedClaimFits(cap, s, l.p);
    }
    if l.Step? && s.procs[l.p].SwapTail? && s.procs[l.p].tail == s.tail {
      ClaimIsShaped(cap, s, l.p);
    }
    forall q | q in s'.procs
      ensures Fits(cap, s'.tail, s'.procs[q])
    {
      if q in s.procs {
        InvProducer(cap, s, q);
      }
    }
  }

  /** A claim that passed a correct check is no overrun, whether it wraps or not. */
  lemma FittingClaimIsNoOverrun(cap: int, s: State, l: Label)
    requires Inv(cap, s) && cap > 0 && Enabled(cap, s, l) && AllFit(cap, s)
    ensures !Overrun(cap, s, l)
  {
    hide Index, Required, Inv;
    if Overrun(cap, s, l) {
      InvProducer(cap, s, l.p);
      InvOrdered(cap, s);
      var SwapTail(m, head, tail, padding) := s.procs[l.p];
      RequiredBounds(cap, m);
      assert Fits(cap, s.tail, s.procs[l.p]);
      if padding != 0 {
        WrappedClaimFits(cap, head, tail, Required(m));
      }
    }
  }
}

/** What the int32 capacity check does when a producer sleeps between reading the head and caching it. */
module ManyToOneStall {
  import opened Bits
  import opened CircularBuffer
  import opened ManyToOneRingBuffer
  import opened ManyToOneProof
  import opened ManyToOneTheorems

  /** The check is sound for every record size exactly when the held head is at most 2^31 + capacity behind the
      tail, or the low 32 bits of the distance leave no room for the smallest record. */
  lemma CapacityCheckSoundIff(cap: int, tail: int, head: int)
    requires ValidCapacity(cap) && head <= tail
    ensures (forall required | 8 <= required <= cap && required % 8 == 0 :: SoundFor(cap, tail, head, required))
        <==> (tail - head <= TWO_31 + cap || cap - 8 < (tail - head) % TWO_32 <= TWO_31 + cap)
  {
    hide Available, Misjudged;
    forall required | 8 <= required <= cap && required % 8 == 0
      ensures SoundFor(cap, tail, head, required) <==> !Misjudged(cap, tail, head, required)
    {
      CheckWrongIff(cap, tail, head, required);
    }
    SmallestIsMisjudgedFirst(cap, tail, head);
    assert SoundFor(cap, tail, head, 8) <==> !Misjudged(cap, tail, head, 8);
  }

  /** The check lets a record of this size through only if it fits. */
  predicate SoundFor(cap: int, tail: int, head: int, required: int) {
    required <= Available(cap, tail, head) ==> required <= cap - (tail - head)
  }

  /** If any record size is misjudged, the smallest one is. */
  lemma SmallestIsMisjudgedFirst(cap: int, tail: int, head: int)
    requires ValidCapacity(cap) && head <= tail
    ensures Misjudged(cap, tail, head, 8)
       <==> !(tail - head <= TWO_31 + cap || cap - 8 < (tail - head) % TWO_32 <= TWO_31 + cap)
    ensures forall required | 8 <= required <= cap && Misjudged(cap, tail, head, required) ::
              Misjudged(cap, tail, head, 8)
  {
  }

  // ---------------------------------------------------------------------------------------------
  // A claim that nobody interrupts
  // ---------------------------------------------------------------------------------------------

  /** The producer is between reading the tail and swapping it. */
  predicate Claiming(pc: PC) {
    pc.ReadTail? || pc.ReadHead? || Checked(pc)
  }

  /** Up to n steps of producer p alone, until it owns a claim or gives up. */
  ghost function Alone(cap: int, s: State, p: Producer, n: nat): (s': State)
    requires cap > 0 && p in s.procs
    ensures p in s'.procs
    decreases n
  {
    if n == 0 || !Claiming(s.procs[p]) then s else Alone(cap, Produce(cap, s, p), p, n - 1)
  }

  /** Where a claim checked against a held head ends, padding included; the tail itself if it is given up. */
  function ClaimEnd(cap: int, tail: int, held: int, head: int, required: int): (end: int)
    requires cap > 0
  {
    var toBufferEnd := cap - Index(tail, cap);
    if required <= toBufferEnd then tail + required
    else if required <= Index(held, cap) || required <= Index(head, cap) then tail + toBufferEnd + required
    else tail
  }

  /** Producer p is done claiming and the tail is where its claim ends. */
  predicate Settled(s: State, p: Producer, head: int, end: int) {
    p in s.procs && !Claiming(s.procs[p]) && s.head == head && s.tail == end
  }

  /** From the swap on, or from the second reading of the head on. */
  lemma AloneSwaps(cap: int, s: State, p: Producer, m: Message, head: int, padding: int, n: nat)
    requires ValidCapacity(cap) && p in s.procs && s.procs[p] == SwapTail(m, head, s.tail, padding) && n >= 1
    ensures Settled(Alone(cap, s, p, n), p, s.head, s.tail + padding + Required(m))
  {
    hide Index, Required;
    var s' := Produce(cap, s, p);
    assert !Claiming(s'.procs[p]);
  }

  lemma AloneRereads(cap: int, s: State, p: Producer, m: Message, head: int, n: nat)
    requires ValidCapacity(cap) && p in s.procs && s.procs[p] == ReadHeadForWrap(m, head, s.tail) && n >= 3
    ensures Settled(Alone(cap, s, p, n), p, s.head,
                    if Required(m) > Index(s.head, cap) then s.tail
                    else s.tail + (cap - Index(s.tail, cap)) + Required(m))
  {
    hide Index, Required;
    var s1 := Produce(cap, s, p);
    if Required(m) <= Index(s.head, cap) {
      var s2 := Produce(cap, s1, p);
      AloneSwaps(cap, s2, p, m, s.head, cap - Index(s.tail, cap), n - 2);
      assert Alone(cap, s1, p, n - 1) == Alone(cap, s2, p, n - 2);
    }
  }

  /** From the end-of-buffer decision on. */
  lemma AloneChecked(cap: int, s: State, p: Producer, m: Message, held: int, n: nat)
    requires ValidCapacity(cap) && p in s.procs && s.procs[p] == CheckWrap(cap, m, held, s.tail) && n >= 3
    ensures Settled(Alone(cap, s, p, n), p, s.head, ClaimEnd(cap, s.tail, held, s.head, Required(m)))
  {
    hide Index, Required, Alone;
    if s.procs[p].SwapTail? {
      AloneSwaps(cap, s, p, m, held, s.procs[p].padding, n);
    } else {
      AloneRereads(cap, s, p, m, held, n);
    }
  }

  lemma AloneFromReadTail(cap: int, s: State, p: Producer, m: Message, held: int)
    requires ValidCapacity(cap) && p in s.procs && s.procs[p] == ReadTail(m, held)
    ensures Settled(Alone(cap, s, p, 6), p, s.head,
                    if Required(m) <= Available(cap, s.tail, held)
                    then ClaimEnd(cap, s.tail, held, s.head, Required(m))
                    else if Required(m) <= Available(cap, s.tail, s.head)
                    then ClaimEnd(cap, s.tail, s.head, s.head, Required(m))
                    else s.tail)
  {
    hide Index, Required, Available, ClaimEnd, CheckWrap;
    var s1 := Produce(cap, s, p);
    if Required(m) <= Available(cap, s.tail, held) {
      AloneChecked(cap, s1, p, m, held, 5);
    } else if Required(m) <= Available(cap, s.tail, s.head) {
      var s2 := Produce(cap, s1, p);
      var s3 := Produce(cap, s2, p);
      AloneChecked(cap, s3, p, m, s.head, 3);
      assert Alone(cap, s1, p, 5) == Alone(cap, s2, p, 4) == Alone(cap, s3, p, 3);
    } else {
      var s2 := Produce(cap, s1, p);
      assert Alone(cap, s1, p, 5) == Alone(cap, s2, p, 4) == s2;
    }
  }

  /** A claim that fits behind a head ends before that head's next lap. */
  lemma FittingClaimEnds(cap: int, tail: int, held: int, head: int, required: int)
    requires ValidCapacity(cap) && held <= head <= tail && required > 0 && required + tail - held <= cap
    ensures ClaimEnd(cap, tail, held, head, required) <= head + cap
  {
    hide Index;
    var toBufferEnd := cap - Index(tail, cap);
    if required > toBufferEnd {
      if required <= Index(held, cap) {
        WrappedClaimFits(cap, held, tail, required);
      } else if required <= Index(head, cap) {
        WrappedClaimFits(cap, head, tail, required);
      }
    }
  }

  /** A producer that runs from reading the tail to its swap without interruption claims more than is free if and only
      if its held head misleads it and the claim, padding included, does not fit behind the true head. */
  lemma UninterruptedClaimOverrunsIff(cap: int, s: State, p: Producer)
    requires cap > 0 && Inv(cap, s) && p in s.procs && s.procs[p].ReadTail?
    ensures !Claiming(Alone(cap, s, p, 6).procs[p])
    ensures var s' := Alone(cap, s, p, 6); var pc := s.procs[p];
            s'.tail > s'.head + cap
            <==> Misled(cap, s, Step(p)) && ClaimEnd(cap, s.tail, pc.head, s.head, Required(pc.m)) > s.head + cap
  {
    hide Index, Required, Inv, Available, Misjudged, ClaimEnd, Alone;
    InvProducer(cap, s, p);
    InvOrdered(cap, s);
    var ReadTail(m, held) := s.procs[p];
    RequiredBounds(cap, m);
    AloneFromReadTail(cap, s, p, m, held);
    CheckWrongIff(cap, s.tail, held, Required(m));
    AvailableExact(cap, s.tail, s.head);
    if Required(m) + s.tail - held <= cap {
      FittingClaimEnds(cap, s.tail, held, s.head, Required(m));
    }
    if Required(m) + s.tail - s.head <= cap {
      FittingClaimEnds(cap, s.tail, s.head, s.head, Required(m));
    }
  }

  // ---------------------------------------------------------------------------------------------
  // Reaching states
  // ---------------------------------------------------------------------------------------------

  ghost predicate Reachable(cap: int, s: State)
    requires cap > 0
  {
    exists states, labels :: IsRun(cap, states, labels) && states[|labels|] == s
  }

  lemma ReachStep(cap: int, s: State, l: Label)
    requires cap > 0 && Reachable(cap, s) && Enabled(cap, s, l)
    ensures Reachable(cap, Next(cap, s, l))
  {
    hide Enabled, Next;
    var states, labels :| IsRun(cap, states, labels) && states[|labels|] == s;
    var states', labels' := states + [Next(cap, s, l)], labels + [l];
    assert IsRun(cap, states', labels') by {
      forall i {:trigger labels'[i]} | 0 <= i < |labels'|
        ensures Enabled(cap, states'[i], labels'[i]) && states'[i + 1] == Next(cap, states'[i], labels'[i])
      {
        if i < |labels| {
          assert labels'[i] == labels[i];
        }
      }
    }
    assert states'[|labels'|] == Next(cap, s, l);
  }

  const CAP: int := 64
  const SLEEPER: Producer := 0
  const WRITER: Producer := 1
  const M: Message := Message(1, [])

  /** The writer is between calls, the sleeper stands at pc, and the ring holds tail - head bytes. */
  ghost predicate Between(s: State, pc: PC) {
    && SLEEPER in s.procs && s.procs[SLEEPER] == pc
    && (WRITER in s.procs ==> s.procs[WRITER].Returned?)
    && 0 <= s.head <= s.tail <= s.head + CAP && s.head % 8 == 0 && s.tail % 8 == 0
    && s.headCache <= s.head && s.tail - s.headCache <= CAP
    && s.cursor == s.zeroed == s.head
  }

  /** s with the writer standing at pc. */
  ghost function At(s: State, pc: PC): State {
    Goto(s, WRITER, pc)
  }

  lemma EmptyMessageFacts()
    ensures Required(M) == 8 && RecordLength(M) == 8 && ChunkCount(M.payload) == 0 && ValidMessage(CAP, M)
  {
    hide AlignInt32, ToInt32, Required;
    RequiredBounds(CAP, M);
  }

  lemma NoWrap(position: int)
    requires position % 8 == 0
    ensures Index(position, CAP) <= CAP - 8
  {
  }

  lemma WriterStep(s: State, pc: PC, s': State)
    requires Reachable(CAP, At(s, pc)) && Enabled(CAP, At(s, pc), Step(WRITER))
    requires s' == Produce(CAP, At(s, pc), WRITER)
    ensures Reachable(CAP, s')
  {
    hide Reachable, Enabled, Produce;
    ReachStep(CAP, At(s, pc), Step(WRITER));
  }

  lemma StartWrite(s: State, pc: PC)
    requires Reachable(CAP, s) && Between(s, pc)
    ensures Reachable(CAP, At(s, ReadTail(M, s.headCache)))
  {
    hide Reachable, Required, Index, ToInt32, RecordLength, ChunkCount, Produce;
    WriterCalls(s);
    ReadsHeadCache(s);
  }

  lemma ReadsHeadCache(s: State)
    requires Reachable(CAP, At(s, ReadHeadCache(M)))
    ensures Reachable(CAP, At(s, ReadTail(M, s.headCache)))
  {
    hide Reachable, Required, Index, ToInt32, RecordLength, ChunkCount;
    WriterStep(s, ReadHeadCache(M), At(s, ReadTail(M, s.headCache)));
  }

  /** The capacity check passes on the cached head. */
  lemma PassOnCachedHead(s: State, head: int)
    requires Reachable(CAP, At(s, ReadTail(M, head))) && s.tail % 8 == 0 && Available(CAP, s.tail, head) >= 8
    ensures Reachable(CAP, At(s, SwapTail(M, head, s.tail, 0)))
  {
    hide Reachable, Available, Index, Required;
    EmptyMessageFacts();
    NoWrap(s.tail);
    assert CheckWrap(CAP, M, head, s.tail) == SwapTail(M, head, s.tail, 0);
    WriterStep(s, ReadTail(M, head), At(s, SwapTail(M, head, s.tail, 0)));
  }

  /** The capacity check fails on the cached head and passes on the true one. */
  lemma PassOnTrueHead(s: State, head: int)
    requires Reachable(CAP, At(s, ReadTail(M, head))) && s.tail % 8 == 0
    requires Available(CAP, s.tail, head) < 8 <= Available(CAP, s.tail, s.head)
    ensures Reachable(CAP, At(s.(headCache := s.head), SwapTail(M, s.head, s.tail, 0)))
  {
    hide Reachable, Available, Index, Required;
    EmptyMessageFacts();
    NoWrap(s.tail);
    assert CheckWrap(CAP, M, s.head, s.tail) == SwapTail(M, s.head, s.tail, 0);
    WriterStep(s, ReadTail(M, head), At(s, ReadHead(M, head, s.tail)));
    WriterStep(s, ReadHead(M, head, s.tail), At(s, StoreHeadCache(M, s.head, s.tail)));
    WriterStep(s, StoreHeadCache(M, s.head, s.tail), At(s.(headCache := s.head), SwapTail(M, s.head, s.tail, 0)));
  }

  ghost function HeadCacheAfter(s: State): int {
    if s.tail - s.headCache <= CAP - 8 then s.headCache else s.head
  }

  lemma ClaimOne(s: State, pc: PC) returns (head: int)
    requires Reachable(CAP, s) && Between(s, pc) && s.tail - s.head <= CAP - 8
    ensures Reachable(CAP, At(s.(headCache := HeadCacheAfter(s)), SwapTail(M, head, s.tail, 0)))
  {
    hide Reachable, Available;
    StartWrite(s, pc);
    AvailableExact(CAP, s.tail, s.headCache);
    if s.tail - s.headCache <= CAP - 8 {
      PassOnCachedHead(s, s.headCache);
      head := s.headCache;
    } else {
      AvailableExact(CAP, s.tail, s.head);
      PassOnTrueHead(s, s.headCache);
      head := s.head;
    }
  }

  /** From a winning swap to the return of `Write`. */
  lemma PublishOne(s: State, head: int)
    requires Reachable(CAP, At(s, SwapTail(M, head, s.tail, 0)))
    ensures Reachable(CAP, At(s.(tail := s.tail + 8, mem := s.mem[Index(s.tail, CAP) := Header(8, 1)],
                                 regions := s.regions + [Region(s.tail, 8, Record(M), WRITER, Done)]),
                              Returned(M, true, |s.regions|)))
  {
    hide Reachable, Index, Required, ChunkCount;
    EmptyMessageFacts();
    var r, i := |s.regions|, Index(s.tail, CAP);
    var claimed := s.(tail := s.tail + 8, regions := s.regions + [Region(s.tail, 8, Record(M), WRITER, Claimed)]);
    WriterStep(s, SwapTail(M, head, s.tail, 0), At(claimed, PutHeader(M, r, i)));
    FillClaim(claimed, s.regions, i);
    assert claimed.mem == s.mem;
  }

  /** Storing the negative length and then the length. */
  lemma FillClaim(s: State, before: seq<Region>, i: int)
    requires s.regions == before + [Region(s.tail - 8, 8, Record(M), WRITER, Claimed)]
    requires Reachable(CAP, At(s, PutHeader(M, |before|, i)))
    ensures Reachable(CAP, At(s.(mem := s.mem[i := Header(8, 1)],
                                 regions := before + [Region(s.tail - 8, 8, Record(M), WRITER, Done)]),
                              Returned(M, true, |before|)))
  {
    hide Reachable, Index, Required, ChunkCount;
    EmptyMessageFacts();
    var r := |before|;
    var half := s.(mem := s.mem[i := Header(-8, 1)],
                   regions := before + [Region(s.tail - 8, 8, Record(M), WRITER, Open(0))]);
    assert half.regions == s.regions[r := s.regions[r].(stage := Open(0))];
    WriterStep(s, PutHeader(M, r, i), At(half, PutLength(M, r, i)));
    var done := s.(mem := s.mem[i := Header(8, 1)],
                   regions := before + [Region(s.tail - 8, 8, Record(M), WRITER, Done)]);
    assert done.regions == half.regions[r := half.regions[r].(stage := Done)];
    assert done.mem == half.mem[i := Header(8, 1)];
    WriterStep(half, PutLength(M, r, i), At(done, Returned(M, true, r)));
  }

  /** One whole write of an empty message. */
  lemma WriteOne(s: State, pc: PC) returns (s': State)
    requires Reachable(CAP, s) && Between(s, pc) && s.tail - s.head <= CAP - 8
    ensures Reachable(CAP, s') && Between(s', pc)
    ensures s'.head == s.head && s'.tail == s.tail + 8 && s'.consumed == s.consumed
    ensures s'.headCache == HeadCacheAfter(s)
    ensures s'.mem == s.mem[Index(s.tail, CAP) := Header(8, 1)]
    ensures s'.regions == s.regions + [Region(s.tail, 8, Record(M), WRITER, Done)]
  {
    hide Reachable, Index;
    var head := ClaimOne(s, pc);
    var s1 := s.(headCache := HeadCacheAfter(s));
    PublishOne(s1, head);
    s' := At(s1.(tail := s.tail + 8, mem := s.mem[Index(s.tail, CAP) := Header(8, 1)],
                 regions := s.regions + [Region(s.tail, 8, Record(M), WRITER, Done)]),
             Returned(M, true, |s.regions|));
  }

  /** A write followed by the consumer reading, zeroing and releasing it. */
  lemma Round(s: State, pc: PC) returns (s': State)
    requires Reachable(CAP, s) && Between(s, pc) && s.tail == s.head && s.mem == map[]
    ensures Reachable(CAP, s') && Between(s', pc) && s'.tail == s'.head == s.tail + 8 && s'.mem == map[]
    ensures s'.headCache == HeadCacheAfter(s) && s'.consumed - |s'.regions| == s.consumed - |s.regions|
  {
    hide Reachable, Index;
    var s1 := WriteOne(s, pc);
    var s2 := ReadsOne(s1);
    var s3 := s2.(mem := s2.mem - {Index(s2.zeroed, CAP)}, zeroed := s2.zeroed + 8);
    ConsumerStep(s2, Zero, s3);
    assert s3.mem == map[];
    s' := s3.(head := s3.cursor);
    ConsumerStep(s3, Release, s');
  }

  lemma ConsumerStep(s: State, l: Label, s': State)
    requires Reachable(CAP, s) && Enabled(CAP, s, l) && s' == Next(CAP, s, l)
    ensures Reachable(CAP, s')
  {
    hide Reachable, Enabled, Next;
    ReachStep(CAP, s, l);
  }

  /** The consumer reads the empty record at its cursor. */
  lemma ReadsOne(s: State) returns (s': State)
    requires Reachable(CAP, s) && s.cursor < s.head + CAP
    requires Index(s.cursor, CAP) in s.mem && s.mem[Index(s.cursor, CAP)] == Header(8, 1)
    ensures Reachable(CAP, s')
    ensures s' == s.(cursor := s.cursor + 8, consumed := s.consumed + 1, delivered := s'.delivered)
  {
    hide Reachable, Index, Decode;
    s' := Next(CAP, s, Read(8, 1));
    ConsumerStep(s, Read(8, 1), s');
  }

  /** Any number of rounds; the first eight leave the initial head cache in place. */
  lemma {:induction false} Rounds(s: State, pc: PC, n: nat) returns (s': State)
    requires Reachable(CAP, s) && Between(s, pc) && s.tail == s.head && s.mem == map[]
    ensures Reachable(CAP, s') && Between(s', pc) && s'.tail == s'.head == s.tail + 8 * n && s'.mem == map[]
    ensures s.headCache == s.tail && n <= 8 ==> s'.headCache == s.headCache
    ensures s'.consumed - |s'.regions| == s.consumed - |s.regions|
    decreases n
  {
    hide Reachable;
    if n == 0 {
      s' := s;
    } else {
      var mid := Rounds(s, pc, n - 1);
      s' := Round(mid, pc);
    }
  }

  /** Writes without the consumer, filling the ring. */
  lemma {:induction false} Fill(s: State, pc: PC, n: nat) returns (s': State)
    requires Reachable(CAP, s) && Between(s, pc) && s.tail == s.head && n <= 8 && s.consumed == |s.regions|
    ensures Reachable(CAP, s') && Between(s', pc) && s'.head == s.head && s'.tail == s.tail + 8 * n
    ensures s'.consumed == s.consumed && |s'.regions| == |s.regions| + n
    ensures n > 0 ==> s'.regions[s'.consumed] == Region(s.tail, 8, Record(M), WRITER, Done)
    decreases n
  {
    hide Reachable;
    if n == 0 {
      s' := s;
    } else {
      var mid := Fill(s, pc, n - 1);
      s' := WriteOne(mid, pc);
    }
  }

  // ---------------------------------------------------------------------------------------------
  // The failing run
  // ---------------------------------------------------------------------------------------------

  const START: State := State(0, 0, 0, map[], map[], 0, 0, [], 0, [])

  lemma StartIsReachable()
    ensures Reachable(CAP, START)
  {
    var states, labels: seq<Label> := [START], [];
    assert IsRun(CAP, states, labels) && states[|labels|] == START;
  }

  lemma SleeperStep(s: State, s': State)
    requires Reachable(CAP, s) && Enabled(CAP, s, Step(SLEEPER)) && s' == Produce(CAP, s, SLEEPER)
    ensures Reachable(CAP, s')
  {
    hide Reachable, Enabled, Produce;
    ReachStep(CAP, s, Step(SLEEPER));
  }

  /** After eight rounds the sleeper finds the cached head useless, reads the true one and is about to store it. */
  lemma SleeperReads(s: State)
    requires Reachable(CAP, s) && Between(s, ReadHeadCache(M)) && s.tail == s.head == 64 && s.headCache == 0
    ensures Reachable(CAP, Goto(s, SLEEPER, StoreHeadCache(M, 64, 64)))
  {
    hide Reachable, Index, Available, Required;
    EmptyMessageFacts();
    AvailableExact(CAP, 64, 0);
    AvailableExact(CAP, 64, 64);
    SleeperStep(s, Goto(s, SLEEPER, ReadTail(M, 0)));
    SleeperStep(Goto(s, SLEEPER, ReadTail(M, 0)), Goto(s, SLEEPER, ReadHead(M, 0, 64)));
    SleeperStep(Goto(s, SLEEPER, ReadHead(M, 0, 64)), Goto(s, SLEEPER, StoreHeadCache(M, 64, 64)));
  }

  lemma SleeperCalls()
    ensures Reachable(CAP, Goto(START, SLEEPER, ReadHeadCache(M)))
  {
    hide Reachable, Index, Required, Produce;
    EmptyMessageFacts();
    StartIsReachable();
    ReachStep(CAP, START, Call(SLEEPER, M));
  }

  /** The sleeper reads the head at position 64 and sleeps just before storing it in the head cache. */
  lemma SleeperFallsAsleep() returns (s: State)
    ensures Reachable(CAP, s) && Between(s, StoreHeadCache(M, 64, 64)) && s.tail == s.head == 64 && s.mem == map[]
    ensures s.consumed == |s.regions|
  {
    hide Reachable;
    SleeperCalls();
    var s1 := Rounds(Goto(START, SLEEPER, ReadHeadCache(M)), ReadHeadCache(M), 8);
    SleeperReads(s1);
    s := Goto(s1, SLEEPER, StoreHeadCache(M, 64, 64));
  }

  const FAR: int := TWO_31 + 128

  /** More than 2^31 bytes later the ring is full; the sleeper wakes up and stores the old head. */
  lemma SleeperWakes() returns (s: State)
    ensures Reachable(CAP, s) && s.head == FAR && s.tail == FAR + 64 && s.headCache == 64
    ensures WRITER in s.procs ==> s.procs[WRITER].Returned?
    ensures s.consumed < |s.regions| && s.regions[s.consumed] == Region(FAR, 8, Record(M), WRITER, Done)
  {
    hide Reachable, Index;
    var pc := StoreHeadCache(M, 64, 64);
    var s1 := SleeperFallsAsleep();
    var s2 := Rounds(s1, pc, (FAR - 64) / 8);
    var s3 := Fill(s2, pc, 8);
    ReachStep(CAP, s3, Step(SLEEPER));
    s := Next(CAP, s3, Step(SLEEPER));
  }

  /** Without the bound on stalls the capacity check is wrong: a run exists in which a claim is granted over the
      finished, still unread record one lap behind it. */
  lemma LongStallOverwritesUnreadRecord() returns (s: State)
    ensures Reachable(CAP, s) && s.tail > s.head + CAP
    ensures s.consumed < |s.regions| - 1 && s.regions[s.consumed].stage == Done
    ensures Index(s.regions[|s.regions| - 1].pos, CAP) == Index(s.regions[s.consumed].pos, CAP)
  {
    hide Reachable, Produce, Available, Index;
    var s1 := SleeperWakes();
    WriterCalls(s1);
    ReadsHeadCache(s1);
    FarIsMistaken();
    PassOnCachedHead(s1, 64);
    s := GrantedOver(s1);
  }

  /** The truncated difference makes a full ring look almost empty. */
  lemma FarIsMistaken()
    ensures Available(CAP, FAR + 64, 64) == TWO_31 - 64 && Index(FAR + 64, CAP) == Index(FAR, CAP)
            && (FAR + 64) % 8 == 0
  {
    ToInt32Nested(CAP, FAR);
  }

  lemma WriterCalls(s: State)
    requires Reachable(CAP, s) && (WRITER in s.procs ==> s.procs[WRITER].Returned?)
    ensures Reachable(CAP, At(s, ReadHeadCache(M)))
  {
    hide Reachable, Index, Required, Produce, RecordLength, ChunkCount;
    EmptyMessageFacts();
    ReachStep(CAP, s, Call(WRITER, M));
  }

  lemma GrantedOver(s: State) returns (s': State)
    requires Reachable(CAP, At(s, SwapTail(M, 64, s.tail, 0)))
    ensures Reachable(CAP, s') && s'.tail == s.tail + 8 && s'.head == s.head && s'.consumed == s.consumed
    ensures |s'.regions| == |s.regions| + 1 && s'.regions[..|s.regions|] == s.regions
    ensures s'.regions[|s.regions|].pos == s.tail
  {
    hide Reachable, Index, Required, ChunkCount;
    EmptyMessageFacts();
    s' := Produce(CAP, At(s, SwapTail(M, 64, s.tail, 0)), WRITER);
    WriterStep(s, SwapTail(M, 64, s.tail, 0), s');
  }
}

/** As long as the receiver is not fooled, only whole messages are delivered, in order, whatever the transmitter does
    between any two of the receiver's reads. */
module BroadcastProof {
  import opened Bits
  import opened CircularBuffer
  import opened Broadcast

  // ---------------------------------------------------------------------------------------------
  // Entries
  // ---------------------------------------------------------------------------------------------

  lemma {:induction false} EntriesOrdered(es: seq<Entry>, i: nat, j: nat)
    requires Chained(es) && i < j <= |es|
    ensures EndPos(es[i]) <= Start(es, j)
    decreases j - i
  {
    hide Required;
    if i + 1 < j {
      EntriesOrdered(es, i + 1, j);
    }
  }

  lemma ChunksElsewhere(mem: Memory, at: int, payload: seq<byte>, n: nat, y: int, w: Word)
    requires ChunksInPlace(mem, at, payload, n) && (y < at || at + 8 * n <= y)
    ensures ChunksInPlace(mem[y := w], at, payload, n)
  {
    hide Chunk, ChunkCount;
  }

  /** A store at y cannot hit a record whose words lie less than a lap behind it. */
  lemma StoreMissesRecord(cap: int, mem: Memory, e: Entry, y: int, w: Word)
    requires ValidCapacity(cap) && Shaped(cap, e) && RecordInPlace(cap, mem, e)
    requires EndPos(e) <= y < RecordPos(e) + cap
    ensures RecordInPlace(cap, mem[Index(y, cap) := w], e)
  {
    hide Index, Chunk, ChunkCount, Required, RecordLength;
    var p, at, z := RecordPos(e), Index(RecordPos(e), cap), Index(y, cap);
    if at <= z < at + Required(e.msg) {
      IndexAdvance(p, z - at, cap);
      IndexInjective(p + (z - at), y, cap);
    } else {
      ChunksElsewhere(mem, at + HEADER_LENGTH, e.msg.payload, ChunkCount(e.msg.payload), z, w);
    }
  }

  lemma StoreKeepsIntact(cap: int, b: Shared, e: Entry, y: int, w: Word)
    requires ValidCapacity(cap) && Shaped(cap, e) && Intact(cap, b, e) && EndPos(e) <= y < b.tailIntent
    ensures Intact(cap, b.(mem := b.mem[Index(y, cap) := w]), e)
  {
    hide Index, Required, RecordInPlace;
    if RecordPos(e) + cap >= b.tailIntent {
      StoreMissesRecord(cap, b.mem, e, y, w);
    }
    if e.pos + cap >= b.tailIntent && e.pad > 0 {
      IndexInjective(e.pos, y, cap);
    }
  }

  lemma RequiredSmall(m: Message)
    requires |m.payload| < 0x4000_0000
    ensures HEADER_LENGTH <= Required(m) <= |m.payload| + 15
  {
  }

  lemma NewEntryShaped(cap: int, tail: int, m: Message)
    requires ValidCapacity(cap) && ValidMessage(cap, m) && 0 <= tail && tail % 8 == 0
    ensures Shaped(cap, Entry(tail, Padding(cap, tail, m), m))
  {
    hide Index, Required;
    RequiredIsHeaderPlusChunks(m);
    IndexWrap(tail, cap);
    RequiredSmall(m);
  }

  // ---------------------------------------------------------------------------------------------
  // Transmitter steps
  // ---------------------------------------------------------------------------------------------

  /** Raising the intent or changing memory elsewhere never helps the receiver, so what it relies on survives. */
  lemma ReceiverStable(cap: int, s: State, s': State)
    requires cap > 0 && ReceiverOk(cap, s) && DeliveryOk(s)
    requires s'.r == s.r && s'.phase == s.phase && s'.next == s.next && s'.first == s.first
    requires s'.delivered == s.delivered && s.entries <= s'.entries && s.b.tailIntent <= s'.b.tailIntent
    requires Start(s'.entries, s.next) == Start(s.entries, s.next)
    ensures ReceiverOk(cap, s') && DeliveryOk(s')
  {
    hide Index, Required;
    var n := s.first + |s.delivered|;
    assert s'.entries[s.first..n] == s.entries[s.first..n];
  }

  lemma RaiseIntentKeepsInv(cap: int, s: State, m: Message)
    requires Inv(cap, s) && Enabled(cap, s, RaiseIntent(m))
    ensures Inv(cap, Next(cap, s, RaiseIntent(m)))
  {
    hide Index, Required, Intact, ReceiverOk, DeliveryOk, Padding, Shaped, Chained, EndPos;
    var s' := Next(cap, s, RaiseIntent(m));
    NewEntryShaped(cap, s.b.tail, m);
    EntryNonEmpty(cap, s'.tx.e);
    ReceiverStable(cap, s, s');
    forall i | 0 <= i < |s'.entries|
      ensures Intact(cap, s'.b, s'.entries[i])
    {
      IntactMonotone(cap, s.b, s'.b, s.entries[i]);
    }
  }

  /** The more the intent advances, the less an entry promises. */
  lemma IntactMonotone(cap: int, b: Shared, b': Shared, e: Entry)
    requires cap > 0 && Intact(cap, b, e) && b.tailIntent <= b'.tailIntent && b'.mem == b.mem
    ensures Intact(cap, b', e)
  {
    hide Index, RecordInPlace, PaddingInPlace;
  }

  lemma ScribbleKeepsInv(cap: int, s: State, y: int, w: Word)
    requires Inv(cap, s) && Enabled(cap, s, Scribble(y, w))
    ensures Inv(cap, Next(cap, s, Scribble(y, w)))
  {
    hide Index, Required, Intact, ReceiverOk, DeliveryOk, Shaped;
    var s' := Next(cap, s, Scribble(y, w));
    ReceiverStable(cap, s, s');
    forall i | 0 <= i < |s'.entries|
      ensures Intact(cap, s'.b, s'.entries[i])
    {
      EntriesOrdered(s.entries, i, |s.entries|);
      StoreKeepsIntact(cap, s.b, s.entries[i], y, w);
    }
  }

  lemma SetLatestKeepsInv(cap: int, s: State)
    requires Inv(cap, s) && Enabled(cap, s, SetLatest)
    ensures Inv(cap, Next(cap, s, SetLatest))
  {
    hide Index, Required, RecordInPlace, PaddingInPlace, ReceiverOk, DeliveryOk, Shaped;
    var s' := Next(cap, s, SetLatest);
    var e := s.tx.e;
    assert e.pos < EndPos(e) by { EntryNonEmpty(cap, e); }
    assert Chained(s'.entries) by {
      forall i {:trigger s'.entries[i]} | 0 <= i < |s'.entries|
        ensures EndPos(s'.entries[i]) == Start(s'.entries, i + 1) && s'.entries[i].pos < EndPos(s'.entries[i])
      {
        if i < |s.entries| { assert s'.entries[i] == s.entries[i]; }
      }
    }
    NextWithin(cap, s);
    ReceiverStable(cap, s, s');
    forall i | 0 <= i < |s'.entries|
      ensures Shaped(cap, s'.entries[i]) && Intact(cap, s'.b, s'.entries[i])
    {
      if i < |s.entries| { assert Intact(cap, s.b, s.entries[i]); }
    }
  }

  lemma EntryNonEmpty(cap: int, e: Entry)
    requires cap > 0 && Shaped(cap, e)
    ensures e.pos < EndPos(e)
  {
    hide Index;
  }

  lemma NextWithin(cap: int, s: State)
    requires cap > 0 && ReceiverOk(cap, s)
    ensures s.next <= |s.entries|
  {
  }

  lemma SetTailKeepsInv(cap: int, s: State)
    requires Inv(cap, s) && Enabled(cap, s, SetTail)
    ensures Inv(cap, Next(cap, s, SetTail))
  {
    hide Index, Required, Intact, ReceiverOk, DeliveryOk, Shaped, Chained, EndPos;
    var s' := Next(cap, s, SetTail);
    ReceiverStable(cap, s, s');
    EndAligned(cap, s.entries[|s.entries| - 1]);
    forall i | 0 <= i < |s'.entries|
      ensures Intact(cap, s'.b, s'.entries[i])
    {
      IntactMonotone(cap, s.b, s'.b, s.entries[i]);
    }
  }

  lemma EndAligned(cap: int, e: Entry)
    requires ValidCapacity(cap) && Shaped(cap, e)
    ensures EndPos(e) % 8 == 0 && EndPos(e) >= 0
  {
    hide Index, Required;
    IndexAligned(e.pos, cap);
  }

  // ---------------------------------------------------------------------------------------------
  // Receiver steps
  // ---------------------------------------------------------------------------------------------

  /** The reads that are still to come in a `receiveNext`, one after the other. */
  function RestOfReads(cap: int, r: Cursor, phase: Phase, w: Reads): (res: (Cursor, Phase))
    requires cap > 0
    decreases match phase case Validating(_) => 5 case ReadingLatest(_) => 4 case Measuring(_, _) => 3
              case Matching(_, _) => 2 case MeasuringFirst(_) => 1 case _ => 0
  {
    match phase
    case Validating(c) => var (r', p) := GotIntent(cap, r, c, w.tailIntent); RestOfReads(cap, r', p, w)
    case ReadingLatest(c) => var (r', p) := GotLatest(r, c, w.latest); RestOfReads(cap, r', p, w)
    case Measuring(c, at) => var (r', p) := GotLength(r, c, at, w.length); RestOfReads(cap, r', p, w)
    case Matching(c, at) => var (r', p) := GotType(cap, r, c, at, w.typ); RestOfReads(cap, r', p, w)
    case MeasuringFirst(c) => GotFirstLength(r, c, w.firstLength)
    case _ => (r, phase)
  }

  lemma {:induction false} LandingMakesReceiveNext(cap: int, r: Cursor, caller: Caller, at: int, w: Reads)
    requires cap > 0 && r.cursor == at
    ensures RestOfReads(cap, r, Measuring(caller, at), w) == (LandAt(cap, r, at, w), AfterReceiveNext(r, caller))
  {
    hide AlignInt32, Index;
    var (r1, p1) := GotLength(r, caller, at, w.length);
    var (r2, p2) := GotType(cap, r1, caller, at, w.typ);
    assert RestOfReads(cap, r, Measuring(caller, at), w) == RestOfReads(cap, r1, p1, w) == RestOfReads(cap, r2, p2, w);
  }

  /** The separate reads, with whatever the transmitter does between them, add up to `receiveNext`; `Receive` goes on
      unless there was nothing to read or it was lapped. */
  lemma ReadsMakeReceiveNext(cap: int, r: Cursor, w: Reads)
    requires cap > 0
    ensures var (r', p) := RestOfReads(cap, r, GotTail(r, Idle, w.tail), w);
            var (isAvailable, c) := ReceiveNext(cap, r, w);
            && r' == c
            && p == if !isAvailable then Idle else if c.lappedCount != r.lappedCount then Panicked else ReadingLength
  {
    hide AlignInt32, Index;
    if w.tail > r.nextRecord {
      var caller := Receive(r.lappedCount);
      var (r1, p1) := GotIntent(cap, r, caller, w.tailIntent);
      if p1.Measuring? {
        LandingMakesReceiveNext(cap, r1, caller, r.nextRecord, w);
      } else {
        LandingMakesReceiveNext(cap, r1.(cursor := w.latest), caller, w.latest, w);
      }
    }
  }

  lemma SameEntriesTransmitterOk(cap: int, s: State, s': State)
    requires cap > 0 && TransmitterOk(cap, s) && s'.b == s.b && s'.tx == s.tx && s'.entries == s.entries
    ensures TransmitterOk(cap, s')
  {
    hide Index, Required, Intact, Shaped, Chained;
  }

  lemma AlignedIsItself(n: int)
    requires 0 <= n < TWO_31 - 8 && n % 8 == 0
    ensures AlignInt32(n, 8) == n
  {
  }

  /** While there is something below the tail, the next record is that of an entry. */
  lemma EntryBelowTail(cap: int, s: State)
    requires Inv(cap, s) && s.b.tail > s.r.nextRecord && s.r.nextRecord == Start(s.entries, s.next)
    ensures s.next < |s.entries|
  {
    hide Index, Required, Intact, Shaped, DeliveryOk, ReadingOk;
  }

  lemma ReadTailKeepsInv(cap: int, s: State)
    requires Inv(cap, s) && Enabled(cap, s, ReadTail)
    ensures Inv(cap, Next(cap, s, ReadTail))
  {
    hide Index, Required, TransmitterOk;
    if s.b.tail > s.r.nextRecord {
      EntryBelowTail(cap, s);
    }
    var s' := Next(cap, s, ReadTail);
    SameEntriesTransmitterOk(cap, s, s');
    assert s'.entries[s'.next..s'.next] == [];
  }

  lemma CheckValidKeepsInv(cap: int, s: State)
    requires Inv(cap, s) && Enabled(cap, s, CheckValid)
    ensures Inv(cap, Next(cap, s, CheckValid))
  {
    hide Index, Required, TransmitterOk;
    SameEntriesTransmitterOk(cap, s, Next(cap, s, CheckValid));
  }

  lemma ReadLatestKeepsInv(cap: int, s: State)
    requires Inv(cap, s) && Enabled(cap, s, ReadLatest)
    ensures Inv(cap, Next(cap, s, ReadLatest))
  {
    hide Index, Required, TransmitterOk;
    LatestValidates(cap, s);
    SameEntriesTransmitterOk(cap, s, Next(cap, s, ReadLatest));
  }

  /** The words of an entry that has not been overwritten, where the receiver may land on it. */
  lemma EntryUnderLanding(cap: int, s: State, at: int)
    requires cap > 0 && TransmitterOk(cap, s) && 0 < s.next <= |s.entries| && Validate(cap, s.b, at)
    requires at == s.entries[s.next - 1].pos || at == RecordPos(s.entries[s.next - 1])
    ensures var e := s.entries[s.next - 1];
            && Shaped(cap, e) && RecordInPlace(cap, s.b.mem, e) && (at == e.pos ==> PaddingInPlace(cap, s.b.mem, e))
            && EndPos(e) == Start(s.entries, s.next)
  {
    hide Index, Required, RecordInPlace, PaddingInPlace;
    assert Shaped(cap, s.entries[s.next - 1]) && Intact(cap, s.b, s.entries[s.next - 1]);
  }

  /** The first word of an intact entry: padding up to its record, or the record's own header. */
  lemma LandingWord(cap: int, mem: Memory, e: Entry, at: int, n: int)
    requires ValidCapacity(cap) && Shaped(cap, e) && RecordInPlace(cap, mem, e)
    requires at == RecordPos(e) || (at == e.pos && PaddingInPlace(cap, mem, e))
    ensures SeesLength(mem, Index(at, cap), n) ==>
              at + AlignInt32(n, 8) == if at == RecordPos(e) then EndPos(e) else RecordPos(e)
    ensures SeesType(mem, Index(at, cap), n) ==> (n == PADDING_TYPE <==> at != RecordPos(e))
    ensures at != RecordPos(e) ==> Index(RecordPos(e), cap) == 0
  {
    hide Index, ChunkCount, ChunksInPlace;
    if at != RecordPos(e) {
      IndexWrap(e.pos, cap);
      IndexAligned(e.pos, cap);
      AlignedIsItself(e.pad);
    }
  }

  /** When the latest counter is read, the transmitter cannot have reached that record again. */
  lemma LatestValidates(cap: int, s: State)
    requires ValidCapacity(cap) && TransmitterOk(cap, s) && s.entries != []
    ensures s.b.latest == RecordPos(s.entries[|s.entries| - 1]) && Validate(cap, s.b, s.b.latest)
  {
    hide Index, Required, Intact, Chained;
    assert Shaped(cap, s.entries[|s.entries| - 1]);
  }

  /** The reads of a `receiveNext` during which the transmitter does nothing. */
  ghost predicate ReadsAtOnce(cap: int, b: Shared, r: Cursor, w: Reads)
    requires cap > 0
  {
    var at := if Validate(cap, b, r.nextRecord) then r.nextRecord else b.latest;
    && w.tail == b.tail && w.tailIntent == b.tailIntent && w.latest == b.latest
    && SeesLength(b.mem, Index(at, cap), w.length) && SeesType(b.mem, Index(at, cap), w.typ)
    && SeesLength(b.mem, 0, w.firstLength)
  }

  /** Landing on an intact entry finds its record, past padding, and the start of the next entry. */
  lemma LandOnEntry(cap: int, mem: Memory, r: Cursor, e: Entry, at: int, w: Reads)
    requires ValidCapacity(cap) && Shaped(cap, e) && RecordInPlace(cap, mem, e)
    requires at == RecordPos(e) || (at == e.pos && PaddingInPlace(cap, mem, e))
    requires SeesLength(mem, Index(at, cap), w.length) && SeesType(mem, Index(at, cap), w.typ)
    requires SeesLength(mem, 0, w.firstLength)
    ensures StandsOn(cap, LandAt(cap, r, at, w), e)
  {
    hide Index, AlignInt32, Required, SeesLength, SeesType, RecordInPlace, PaddingInPlace, Shaped;
    LandingWord(cap, mem, e, at, w.length);
    LandingWord(cap, mem, e, at, w.typ);
    if at != RecordPos(e) {
      LandingWord(cap, mem, e, RecordPos(e), w.firstLength);
    }
  }

  /** An uninterrupted `receiveNext` stands on the next entry, or on the last one if it was lapped before. */
  lemma ReceiveNextLands(cap: int, s: State, w: Reads)
    requires cap > 0 && Inv(cap, s) && (s.phase.Idle? || s.phase.Scrolling?) && ReadsAtOnce(cap, s.b, s.r, w)
    ensures var (isAvailable, r') := ReceiveNext(cap, s.r, w);
            var valid := Validate(cap, s.b, s.r.nextRecord);
            && (isAvailable ==> s.next < |s.entries|)
            && (isAvailable ==> StandsOn(cap, r', s.entries[if valid then s.next else |s.entries| - 1]))
            && (r'.lappedCount == s.r.lappedCount <==> !isAvailable || valid)
  {
    hide Index, AlignInt32, SeesLength, SeesType, RecordInPlace, PaddingInPlace, StandsOn, Shaped, TransmitterOk,
         DeliveryOk;
    if s.b.tail > s.r.nextRecord {
      EntryBelowTail(cap, s);
      LatestValidates(cap, s);
      if Validate(cap, s.b, s.r.nextRecord) {
        SameEntriesTransmitterOk(cap, s, s.(next := s.next + 1));
        EntryUnderLanding(cap, s.(next := s.next + 1), s.r.nextRecord);
        LandOnEntry(cap, s.b.mem, s.r, s.entries[s.next], s.r.nextRecord, w);
      } else {
        SameEntriesTransmitterOk(cap, s, s.(next := |s.entries|));
        EntryUnderLanding(cap, s.(next := |s.entries|), s.b.latest);
        LandOnEntry(cap, s.b.mem, s.r.(lappedCount := s.r.lappedCount + 1), s.entries[|s.entries| - 1], s.b.latest, w);
      }
    }
  }

  lemma SeeLandingLengthKeepsInv(cap: int, s: State, n: int)
    requires Inv(cap, s) && Enabled(cap, s, SeeLandingLength(n))
    ensures Inv(cap, Next(cap, s, SeeLandingLength(n)))
  {
    hide Index, Required, TransmitterOk, AlignInt32, SeesLength, Shaped, RecordInPlace, PaddingInPlace, EndPos;
    var s' := Next(cap, s, SeeLandingLength(n));
    SameEntriesTransmitterOk(cap, s, s');
    var at := s.phase.at;
    if !Doomed(s) && Validate(cap, s.b, at) {
      EntryUnderLanding(cap, s, at);
      LandingWord(cap, s.b.mem, s.entries[s.next - 1], at, n);
    }
  }

  /** Landing on a position that still validates tells padding from a record. */
  lemma TypeIsRight(cap: int, s: State, t: int)
    requires cap > 0 && Inv(cap, s) && 0 < s.next <= |s.entries|
    requires Enabled(cap, s, SeeLandingType(t)) && !Doomed(s) && Validate(cap, s.b, s.phase.at)
    ensures var e := s.entries[s.next - 1]; var at := s.phase.at;
            && (at == e.pos || at == RecordPos(e)) && (t == PADDING_TYPE <==> at != RecordPos(e))
            && s.r.cursor == at && s.r.nextRecord == (if at == RecordPos(e) then EndPos(e) else RecordPos(e))
            && (at != RecordPos(e) ==> Index(RecordPos(e), cap) == 0) && EndPos(e) == Start(s.entries, s.next)
  {
    hide Index, Required, TransmitterOk, AlignInt32, SeesType, SeesLength, Shaped, RecordInPlace, PaddingInPlace,
         EndPos, RecordPos, DeliveryOk;
    EntryUnderLanding(cap, s, s.phase.at);
    LandingWord(cap, s.b.mem, s.entries[s.next - 1], s.phase.at, t);
  }

  lemma SeeLandingTypeKeepsInv(cap: int, s: State, t: int)
    requires Inv(cap, s) && Enabled(cap, s, SeeLandingType(t)) && !Fooled(cap, s, SeeLandingType(t))
    ensures Inv(cap, Next(cap, s, SeeLandingType(t)))
  {
    hide Index, Required, TransmitterOk, SeesType;
    var s' := Next(cap, s, SeeLandingType(t));
    SameEntriesTransmitterOk(cap, s, s');
    if !Doomed(s) && Validate(cap, s.b, s.phase.at) {
      TypeIsRight(cap, s, t);
    } else if !Doomed(s) && t == PADDING_TYPE && Validate(cap, s.b, s.r.nextRecord) {
      PaddedRecordAtZero(cap, s);
    }
  }

  /** A record that is not where its entry starts is at the start of the buffer. */
  lemma PaddedRecordAtZero(cap: int, s: State)
    requires Inv(cap, s) && 0 < s.next <= |s.entries|
    requires RecordPos(s.entries[s.next - 1]) != s.entries[s.next - 1].pos
    ensures Index(RecordPos(s.entries[s.next - 1]), cap) == 0
  {
    hide Index, Required, ReceiverOk, DeliveryOk, Intact;
    assert Shaped(cap, s.entries[s.next - 1]);
    IndexWrap(s.entries[s.next - 1].pos, cap);
  }

  /** The length word of the record past the padding. */
  lemma FirstLengthIsRight(cap: int, s: State, n: int)
    requires cap > 0 && Inv(cap, s) && 0 < s.next <= |s.entries|
    requires Enabled(cap, s, SeeFirstLength(n)) && !Doomed(s) && Validate(cap, s.b, s.r.cursor)
    ensures var e := s.entries[s.next - 1];
            && s.r.cursor == RecordPos(e) && Index(RecordPos(e), cap) == 0
            && s.r.nextRecord + AlignInt32(n, 8) == EndPos(e) == Start(s.entries, s.next)
  {
    hide Index, Required, TransmitterOk, AlignInt32, SeesType, SeesLength, Shaped, RecordInPlace, PaddingInPlace,
         EndPos, RecordPos, DeliveryOk;
    var e := s.entries[s.next - 1];
    EntryUnderLanding(cap, s, RecordPos(e));
    LandingWord(cap, s.b.mem, e, RecordPos(e), n);
  }

  lemma SeeFirstLengthKeepsInv(cap: int, s: State, n: int)
    requires Inv(cap, s) && Enabled(cap, s, SeeFirstLength(n)) && !Fooled(cap, s, SeeFirstLength(n))
    ensures Inv(cap, Next(cap, s, SeeFirstLength(n)))
  {
    hide Index, Required, TransmitterOk, AlignInt32, SeesLength;
    var s' := Next(cap, s, SeeFirstLength(n));
    SameEntriesTransmitterOk(cap, s, s');
    if !Doomed(s) && Validate(cap, s.b, s.r.cursor) {
      FirstLengthIsRight(cap, s, n);
    }
  }

  /** While the receiver has not been lapped, the record it stands on is in place. */
  lemma RecordUnderCursor(cap: int, s: State)
    requires Inv(cap, s) && (s.phase.ReadingLength? || s.phase.ReadingType? || s.phase.Copying?)
    requires Validate(cap, s.b, s.r.cursor)
    ensures s.next > 0 && Shaped(cap, s.entries[s.next - 1]) && RecordInPlace(cap, s.b.mem, s.entries[s.next - 1])
    ensures StandsOn(cap, s.r, s.entries[s.next - 1]) && ReadingOk(cap, s, s.entries[s.next - 1])
  {
    hide Index, Required, RecordInPlace, PaddingInPlace, DeliveryOk, Chained, Shaped;
    assert Intact(cap, s.b, s.entries[s.next - 1]);
  }

  lemma SeeLengthKeepsInv(cap: int, s: State, n: int)
    requires Inv(cap, s) && Enabled(cap, s, SeeLength(n))
    ensures Inv(cap, Next(cap, s, SeeLength(n)))
  {
    hide Index, TransmitterOk, ChunkCount, Required;
    var s' := Next(cap, s, SeeLength(n));
    SameEntriesTransmitterOk(cap, s, s');
    if Validate(cap, s.b, s.r.cursor) {
      RecordUnderCursor(cap, s);
    }
  }

  lemma SeeTypeKeepsInv(cap: int, s: State, t: int)
    requires Inv(cap, s) && Enabled(cap, s, SeeType(t))
    ensures Inv(cap, Next(cap, s, SeeType(t)))
  {
    hide Index, TransmitterOk, ChunkCount, Required;
    var s' := Next(cap, s, SeeType(t));
    SameEntriesTransmitterOk(cap, s, s');
    if Validate(cap, s.b, s.r.cursor) {
      RecordUnderCursor(cap, s);
    }
  }

  /** A byte read from a record that is in place is the right one. */
  lemma ByteIsRight(mem: Memory, at: int, payload: seq<byte>, j: nat, x: byte)
    requires ChunksInPlace(mem, at, payload, ChunkCount(payload)) && j < |payload| && SeesByte(mem, at, j, x)
    ensures x == payload[j]
  {
    var k := j / 8;
    assert at + 8 * k in mem && mem[at + 8 * k] == Data(Chunk(payload, k));
    assert at + (j - j % 8) == at + 8 * k;
  }

  lemma CopyByteKeepsInv(cap: int, s: State, x: byte)
    requires Inv(cap, s) && Enabled(cap, s, CopyByte(x))
    ensures Inv(cap, Next(cap, s, CopyByte(x)))
  {
    hide Index, TransmitterOk, ChunkCount, Required, ChunksInPlace, SeesByte, Shaped;
    var s' := Next(cap, s, CopyByte(x));
    SameEntriesTransmitterOk(cap, s, s');
    if Validate(cap, s.b, s.r.cursor) {
      RecordUnderCursor(cap, s);
      var e := s.entries[s.next - 1];
      ByteIsRight(s.b.mem, s.r.recordOffset + HEADER_LENGTH, e.msg.payload, |s.phase.copied|, x);
    }
  }

  lemma FinishKeepsInv(cap: int, s: State)
    requires Inv(cap, s) && Enabled(cap, s, Finish)
    ensures Inv(cap, Next(cap, s, Finish))
  {
    hide Index, TransmitterOk, Required;
    var s' := Next(cap, s, Finish);
    SameEntriesTransmitterOk(cap, s, s');
    if Validate(cap, s.b, s.r.cursor) {
      var e := s.entries[s.next - 1];
      EntryUnderLanding(cap, s, RecordPos(e));
      assert Message(s.phase.typ, s.phase.copied) == e.msg;
      var n := s.first + |s.delivered|;
      assert s.entries[s.first..n + 1] == s.entries[s.first..n] + [e];
    }
  }

  /** Every step of the transmitter, and every step of the receiver that does not fool it, keeps the invariant. */
  lemma StepKeepsInv(cap: int, s: State, l: Label)
    requires Inv(cap, s) && cap > 0 && Enabled(cap, s, l) && !Fooled(cap, s, l)
    ensures Inv(cap, Next(cap, s, l))
  {
    hide Inv, Next, Enabled, Fooled;
    match l
    case RaiseIntent(m) => RaiseIntentKeepsInv(cap, s, m);
    case Scribble(y, w) => ScribbleKeepsInv(cap, s, y, w);
    case SetLatest => SetLatestKeepsInv(cap, s);
    case SetTail => SetTailKeepsInv(cap, s);
    case ReadTail => ReadTailKeepsInv(cap, s);
    case CheckValid => CheckValidKeepsInv(cap, s);
    case ReadLatest => ReadLatestKeepsInv(cap, s);
    case SeeLandingLength(n) => SeeLandingLengthKeepsInv(cap, s, n);
    case SeeLandingType(t) => SeeLandingTypeKeepsInv(cap, s, t);
    case SeeFirstLength(n) => SeeFirstLengthKeepsInv(cap, s, n);
    case SeeLength(n) => SeeLengthKeepsInv(cap, s, n);
    case SeeType(t) => SeeTypeKeepsInv(cap, s, t);
    case CopyByte(x) => CopyByteKeepsInv(cap, s, x);
    case Finish => FinishKeepsInv(cap, s);
  }

  lemma InvOnTrack(cap: int, s: State)
    requires Inv(cap, s)
    ensures OnTrack(cap, s)
  {
    hide Index, Required, TransmitterOk, DeliveryOk;
  }

  /** A fooled receiver is off the track of entries. */
  lemma FooledIsOffTrack(cap: int, s: State, l: Label)
    requires cap > 0 && Enabled(cap, s, l) && Fooled(cap, s, l)
    ensures !OnTrack(cap, Next(cap, s, l))
  {
    hide Index, Required, AlignInt32, SeesType, SeesLength, RecordPos, EndPos;
  }

  /** A step keeps the invariant, and keeps the receiver on the track of entries, if and only if it does not fool it. */
  lemma StepKeepsInvIff(cap: int, s: State, l: Label)
    requires Inv(cap, s) && cap > 0 && Enabled(cap, s, l)
    ensures Inv(cap, Next(cap, s, l)) <==> !Fooled(cap, s, l)
    ensures OnTrack(cap, Next(cap, s, l)) <==> !Fooled(cap, s, l)
  {
    hide Inv, Next, Enabled, Fooled, OnTrack;
    if Inv(cap, Next(cap, s, l)) {
      InvOnTrack(cap, Next(cap, s, l));
    }
    if Fooled(cap, s, l) {
      FooledIsOffTrack(cap, s, l);
    } else {
      StepKeepsInv(cap, s, l);
      InvOnTrack(cap, Next(cap, s, l));
    }
  }

  // ---------------------------------------------------------------------------------------------
  // Whole runs
  // ---------------------------------------------------------------------------------------------

  ghost predicate IsRun(cap: int, states: seq<State>, labels: seq<Label>)
    requires cap > 0
  {
    && |states| == |labels| + 1 && Init(states[0])
    && forall i {:trigger labels[i]} | 0 <= i < |labels| ::
         Enabled(cap, states[i], labels[i]) && states[i + 1] == Next(cap, states[i], labels[i])
  }

  ghost predicate NeverFooled(cap: int, states: seq<State>, labels: seq<Label>)
    requires cap > 0 && IsRun(cap, states, labels)
  {
    forall j | 0 <= j < |labels| :: !Fooled(cap, states[j], labels[j])
  }

  lemma {:induction false} RunKeepsInv(cap: int, states: seq<State>, labels: seq<Label>, i: nat)
    requires ValidCapacity(cap) && IsRun(cap, states, labels) && NeverFooled(cap, states, labels) && i < |states|
    ensures Inv(cap, states[i])
  {
    hide Inv, Next, Enabled, Fooled;
    if i == 0 {
      InitEstablishesInv(cap, states[0]);
    } else {
      RunKeepsInv(cap, states, labels, i - 1);
      assert Enabled(cap, states[i - 1], labels[i - 1]);
      StepKeepsInv(cap, states[i - 1], labels[i - 1]);
    }
  }

  /** As long as the receiver is on track, everything else is right too. */
  lemma {:induction false} OnTrackKeepsInv(cap: int, states: seq<State>, labels: seq<Label>, i: nat)
    requires ValidCapacity(cap) && IsRun(cap, states, labels) && i < |states|
    requires forall j | 0 <= j <= i :: OnTrack(cap, states[j])
    ensures Inv(cap, states[i])
  {
    hide Inv, Next, Enabled, OnTrack, Fooled;
    if i == 0 {
      InitEstablishesInv(cap, states[0]);
    } else {
      OnTrackKeepsInv(cap, states, labels, i - 1);
      assert Enabled(cap, states[i - 1], labels[i - 1]) && OnTrack(cap, states[i]);
      StepKeepsInvIff(cap, states[i - 1], labels[i - 1]);
    }
  }

  lemma NeverFooledIfOnTrack(cap: int, states: seq<State>, labels: seq<Label>)
    requires ValidCapacity(cap) && IsRun(cap, states, labels) && forall i | 0 <= i < |states| :: OnTrack(cap, states[i])
    ensures NeverFooled(cap, states, labels)
  {
    hide Inv, Next, Enabled, OnTrack, Fooled;
    forall j | 0 <= j < |labels|
      ensures !Fooled(cap, states[j], labels[j])
    {
      OnTrackKeepsInv(cap, states, labels, j);
      assert Enabled(cap, states[j], labels[j]) && OnTrack(cap, states[j + 1]);
      StepKeepsInvIff(cap, states[j], labels[j]);
    }
  }

  /** The receiver stays on the track of entries throughout a run if and only if it is never fooled in it. */
  lemma StaysOnTrackIff(cap: int, states: seq<State>, labels: seq<Label>)
    requires ValidCapacity(cap) && IsRun(cap, states, labels)
    ensures (forall i | 0 <= i < |states| :: OnTrack(cap, states[i])) <==> NeverFooled(cap, states, labels)
  {
    hide Inv, Next, Enabled, OnTrack, Fooled;
    if NeverFooled(cap, states, labels) {
      forall i | 0 <= i < |states|
        ensures OnTrack(cap, states[i])
      {
        RunKeepsInv(cap, states, labels, i);
        InvOnTrack(cap, states[i]);
      }
    }
    if forall i | 0 <= i < |states| :: OnTrack(cap, states[i]) {
      NeverFooledIfOnTrack(cap, states, labels);
    }
  }

  lemma InitEstablishesInv(cap: int, s: State)
    requires ValidCapacity(cap) && Init(s)
    ensures Inv(cap, s)
  {
  }

  /** The messages the driver transmits in a run, in order, read off the labels alone. */
  ghost function Transmitted(states: seq<State>, labels: seq<Label>): seq<Message>
    requires |states| > |labels|
    requires forall i | 0 <= i < |labels| && labels[i].SetLatest? :: states[i].tx.Writing?
  {
    if labels == [] then []
    else
      var last := |labels| - 1;
      Transmitted(states, labels[..last]) + (if labels[last].SetLatest? then [states[last].tx.e.msg] else [])
  }

  lemma SetLatestWhileWriting(cap: int, states: seq<State>, labels: seq<Label>)
    requires cap > 0 && IsRun(cap, states, labels)
    ensures forall i | 0 <= i < |labels| && labels[i].SetLatest? :: states[i].tx.Writing?
  {
    forall i | 0 <= i < |labels| && labels[i].SetLatest?
      ensures states[i].tx.Writing?
    {
      assert Enabled(cap, states[i], labels[i]);
    }
  }

  lemma StepTransmits(cap: int, s: State, l: Label)
    requires cap > 0 && Enabled(cap, s, l)
    ensures Next(cap, s, l).entries == s.entries + (if l.SetLatest? then [s.tx.e] else [])
    ensures l.SetLatest? ==> s.tx.Writing?
  {
    hide Padding, RecordInPlace, PaddingInPlace, Index, AlignInt32;
  }

  lemma {:induction false} EntriesAreTransmitted(cap: int, states: seq<State>, labels: seq<Label>, n: nat)
    requires cap > 0 && IsRun(cap, states, labels) && n <= |labels|
    requires forall i | 0 <= i < |labels| && labels[i].SetLatest? :: states[i].tx.Writing?
    ensures Messages(states[n].entries) == Transmitted(states, labels[..n])
  {
    hide Next, Enabled;
    if n > 0 {
      EntriesAreTransmitted(cap, states, labels, n - 1);
      assert Enabled(cap, states[n - 1], labels[n - 1]);
      StepTransmits(cap, states[n - 1], labels[n - 1]);
      assert labels[..n][..n - 1] == labels[..n - 1];
    }
  }

  /** Whatever the transmitter overwrites and whenever, a receiver that is never fooled has given its handler a
      contiguous run of the transmitted messages, each whole; if it was lapped it panics. */
  lemma DeliveredIsContiguous(cap: int, states: seq<State>, labels: seq<Label>)
    requires ValidCapacity(cap) && IsRun(cap, states, labels) && NeverFooled(cap, states, labels)
    ensures forall i | 0 <= i < |labels| && labels[i].SetLatest? :: states[i].tx.Writing?
    ensures var s := states[|labels|]; var sent := Transmitted(states, labels);
            s.first + |s.delivered| <= |sent| && s.delivered == sent[s.first..s.first + |s.delivered|]
  {
    hide Next, Enabled, TransmitterOk, ReceiverOk, Fooled;
    var n := |labels|;
    SetLatestWhileWriting(cap, states, labels);
    RunKeepsInv(cap, states, labels, n);
    EntriesAreTransmitted(cap, states, labels, n);
    assert labels[..n] == labels;
    var s := states[n];
    assert Messages(s.entries[s.first..s.first + |s.delivered|])
        == Messages(s.entries)[s.first..s.first + |s.delivered|];
  }

  /** A receiver that did not panic, was never fooled and finds nothing more to read has delivered everything since
      it started. */
  lemma CaughtUpMissedNothing(cap: int, states: seq<State>, labels: seq<Label>)
    requires ValidCapacity(cap) && IsRun(cap, states, labels) && NeverFooled(cap, states, labels)
    requires var s := states[|labels|]; s.phase.Idle? && s.tx.Quiet? && s.b.tail <= s.r.nextRecord
    ensures forall i | 0 <= i < |labels| && labels[i].SetLatest? :: states[i].tx.Writing?
    ensures var s := states[|labels|]; var sent := Transmitted(states, labels);
            s.first <= |sent| && s.delivered == sent[s.first..]
  {
    hide Next, Enabled, Inv, Fooled;
    var n := |labels|;
    DeliveredIsContiguous(cap, states, labels);
    RunKeepsInv(cap, states, labels, n);
    EntriesAreTransmitted(cap, states, labels, n);
    assert labels[..n] == labels;
    AllTaken(cap, states[n]);
  }

  lemma AllTaken(cap: int, s: State)
    requires Inv(cap, s) && s.phase.Idle? && s.tx.Quiet? && s.b.tail <= s.r.nextRecord
    ensures s.first + |s.delivered| == |s.entries|
  {
    hide Index, Required, Intact, Shaped, ReadingOk;
    if s.next < |s.entries| {
      EntriesOrdered(s.entries, s.next, |s.entries|);
    }
  }
}

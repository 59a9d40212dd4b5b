/** aeron/ringbuffer/manytoone.go as a labelled transition system. Any number of producers run `Write`, one atomic
    access per step; the consumer is the media driver, reading records, zeroing them and releasing the space. */
module ManyToOneRingBuffer {
  import opened Bits
  import opened CircularBuffer

  type Producer = nat

  // ---------------------------------------------------------------------------------------------
  // State
  // ---------------------------------------------------------------------------------------------

  /** How far the owner of a claimed stretch has got with it. */
  datatype Stage = Claimed | Open(chunks: nat) | Done

  datatype Kind = Padding | Record(msg: Message)

  /** History: one stretch of the position space, claimed by a successful compare-and-set of the tail. */
  datatype Region = Region(pos: int, len: int, kind: Kind, owner: Producer, stage: Stage)

  /** Where a producer is inside `Write`/`claimCapacity`: the shared access it does next, with its locals. */
  datatype PC =
    | ReadHeadCache(m: Message)
    | ReadTail(m: Message, head: int)
    | ReadHead(m: Message, head: int, tail: int)
    | StoreHeadCache(m: Message, head: int, tail: int)
    | ReadHeadForWrap(m: Message, head: int, tail: int)
    | StoreHeadCacheForWrap(m: Message, head: int, tail: int)
    | SwapTail(m: Message, head: int, tail: int, padding: int)
    | PutPadding(m: Message, region: nat, tailIndex: int, padding: int)
    | PutHeader(m: Message, region: nat, recordIndex: int)
    | PutPayload(m: Message, region: nat, recordIndex: int, chunks: nat)
    | PutLength(m: Message, region: nat, recordIndex: int)
    | Returned(m: Message, ok: bool, region: nat)

  datatype State = State(
    head: int, headCache: int, tail: int, mem: Memory,  // shared
    procs: map<Producer, PC>,                           // producers
    cursor: int, zeroed: int,                           // consumer: read up to, zeroed up to
    regions: seq<Region>, consumed: nat,                // history: claims in CAS order, how many were read
    delivered: seq<Message>)                            // what the consumer has read

  predicate ValidCapacity(cap: int) {
    8 <= cap < TWO_31 && cap % 8 == 0
  }

  /** `checkMsgTypeID` and `checkMsgLength`; a message that fails either one panics in `Write`. */
  predicate ValidMessage(cap: int, m: Message) {
    m.typ >= 1 && |m.payload| <= cap / 8
  }

  predicate Init(s: State) {
    && 0 <= s.tail && s.tail % 8 == 0
    && s.head == s.headCache == s.cursor == s.zeroed == s.tail
    && s.mem == map[] && s.procs == map[] && s.regions == [] && s.consumed == 0 && s.delivered == []
  }

  // ---------------------------------------------------------------------------------------------
  // Steps
  // ---------------------------------------------------------------------------------------------

  function Goto(s: State, p: Producer, pc: PC): (s': State) {
    s.(procs := s.procs[p := pc])
  }

  /** `capacity - int32(tail - head)`, an int32 subtraction. */
  function Available(cap: int, tail: int, head: int): (n: int) {
    ToInt32(cap - ToInt32(tail - head))
  }

  /** The end-of-buffer decision, up to the next shared access. */
  function CheckWrap(cap: int, m: Message, head: int, tail: int): (pc: PC)
    requires cap > 0
  {
    var toBufferEnd := cap - Index(tail, cap);
    if Required(m) <= toBufferEnd then SwapTail(m, head, tail, 0)
    else if Required(m) > Index(head, cap) then ReadHeadForWrap(m, head, tail)
    else SwapTail(m, head, tail, toBufferEnd)
  }

  function NewRegions(p: Producer, m: Message, tail: int, padding: int): (rs: seq<Region>) {
    (if padding != 0 then [Region(tail, padding, Padding, p, Claimed)] else [])
    + [Region(tail + padding, Required(m), Record(m), p, Claimed)]
  }

  function PutWord(s: State, at: int, w: Word, region: nat, stage: Stage): (s': State)
    requires region < |s.regions|
  {
    s.(mem := s.mem[at := w], regions := s.regions[region := s.regions[region].(stage := stage)])
  }

  predicate InFlight(s: State, pc: PC) {
    (pc.PutPadding? || pc.PutHeader? || pc.PutPayload? || pc.PutLength?) ==> pc.region < |s.regions|
  }

  /** One atomic access of producer p. */
  function Produce(cap: int, s: State, p: Producer): (s': State)
    requires cap > 0 && p in s.procs && InFlight(s, s.procs[p])
    requires s.procs[p].PutPayload? ==> s.procs[p].chunks < ChunkCount(s.procs[p].m.payload)
  {
    match s.procs[p]
    case ReadHeadCache(m) => Goto(s, p, ReadTail(m, s.headCache))
    case ReadTail(m, head) =>
      if Required(m) > Available(cap, s.tail, head) then Goto(s, p, ReadHead(m, head, s.tail))
      else Goto(s, p, CheckWrap(cap, m, head, s.tail))
    case ReadHead(m, _, tail) =>
      if Required(m) > Available(cap, tail, s.head) then Goto(s, p, Returned(m, false, 0))
      else Goto(s, p, StoreHeadCache(m, s.head, tail))
    case StoreHeadCache(m, head, tail) =>
      Goto(s.(headCache := head), p, CheckWrap(cap, m, head, tail))
    case ReadHeadForWrap(m, _, tail) =>
      if Required(m) > Index(s.head, cap) then Goto(s, p, Returned(m, false, 0))
      else Goto(s, p, StoreHeadCacheForWrap(m, s.head, tail))
    case StoreHeadCacheForWrap(m, head, tail) =>
      Goto(s.(headCache := head), p, SwapTail(m, head, tail, cap - Index(tail, cap)))
    case SwapTail(m, head, tail, padding) =>
      if s.tail != tail then Goto(s, p, ReadTail(m, head))
      else
        var s1 := s.(tail := tail + Required(m) + padding, regions := s.regions + NewRegions(p, m, tail, padding));
        Goto(s1, p, if padding != 0 then PutPadding(m, |s.regions|, Index(tail, cap), padding)
                    else PutHeader(m, |s.regions|, Index(tail, cap)))
    case PutPadding(m, region, tailIndex, padding) =>
      Goto(PutWord(s, tailIndex, Header(padding, PADDING_TYPE), region, Done), p, PutHeader(m, region + 1, 0))
    case PutHeader(m, region, i) =>
      Goto(PutWord(s, i, Header(-RecordLength(m), m.typ), region, Open(0)), p,
           if ChunkCount(m.payload) == 0 then PutLength(m, region, i) else PutPayload(m, region, i, 0))
    case PutPayload(m, region, i, k) =>
      Goto(PutWord(s, i + HEADER_LENGTH + 8 * k, Data(Chunk(m.payload, k)), region, Open(k + 1)), p,
           if k + 1 == ChunkCount(m.payload) then PutLength(m, region, i) else PutPayload(m, region, i, k + 1))
    case PutLength(m, region, i) =>
      // only the length half of the word is stored
      var typ := if i in s.mem && s.mem[i].Header? then s.mem[i].typ else 0;
      Goto(PutWord(s, i, Header(RecordLength(m), typ), region, Done), p, Returned(m, true, region))
    case Returned(_, _, _) => s
  }

  datatype Label =
    | Call(p: Producer, m: Message)
    | Step(p: Producer)
    | Read(length: int, typ: int)
    | Zero
    | Release

  /** The header the consumer may see at an index; a payload word could look like anything. */
  predicate SeesHeader(mem: Memory, at: int, length: int, typ: int) {
    if at !in mem then length == 0 && typ == 0
    else mem[at].Header? ==> mem[at] == Header(length, typ)
  }

  predicate Enabled(cap: int, s: State, l: Label)
    requires cap > 0
  {
    match l
    case Call(p, m) => p !in s.procs || s.procs[p].Returned?
    case Step(p) =>
      && p in s.procs && !s.procs[p].Returned? && InFlight(s, s.procs[p])
      && (s.procs[p].PutPayload? ==> s.procs[p].chunks < ChunkCount(s.procs[p].m.payload))
    case Read(length, typ) =>
      && s.cursor < s.head + cap && length > 0
      && SeesHeader(s.mem, Index(s.cursor, cap), length, typ)
    case Zero => s.zeroed < s.cursor
    case Release => s.zeroed == s.cursor
  }

  /** What a record header and the bytes after it say to the consumer. */
  function Decode(mem: Memory, at: int, length: int, typ: int): (m: Message) {
    Message(typ, ReadPayload(mem, at + HEADER_LENGTH, length - HEADER_LENGTH))
  }

  function Next(cap: int, s: State, l: Label): (s': State)
    requires cap > 0 && Enabled(cap, s, l)
  {
    match l
    case Call(p, m) => if ValidMessage(cap, m) then Goto(s, p, ReadHeadCache(m)) else s
    case Step(p) => Produce(cap, s, p)
    case Read(length, typ) =>
      var s1 := s.(cursor := s.cursor + AlignInt32(length, 8), consumed := s.consumed + 1);
      if typ == PADDING_TYPE then s1
      else s1.(delivered := s.delivered + [Decode(s.mem, Index(s.cursor, cap), length, typ)])
    case Zero => s.(mem := s.mem - {Index(s.zeroed, cap)}, zeroed := s.zeroed + 8)
    case Release => s.(head := s.cursor)
  }

  // ---------------------------------------------------------------------------------------------
  // The invariant
  // ---------------------------------------------------------------------------------------------

  ghost predicate Ordered(cap: int, s: State) {
    && 0 <= s.headCache <= s.head <= s.zeroed <= s.cursor <= s.tail <= s.head + cap
    && s.headCache % 8 == 0 && s.head % 8 == 0 && s.zeroed % 8 == 0 && s.cursor % 8 == 0 && s.tail % 8 == 0
  }

  /** Where region i starts, or the tail when it is the next one to be claimed. */
  ghost function Start(s: State, i: nat): int {
    if i < |s.regions| then s.regions[i].pos else s.tail
  }

  /** 8-aligned, inside one lap of the buffer, and for a record just as long as the record needs. */
  ghost predicate Shaped(cap: int, r: Region)
    requires cap > 0
  {
    && 0 <= r.pos && r.pos % 8 == 0 && r.len % 8 == 0 && r.len >= 8
    && Index(r.pos, cap) + r.len <= cap
    && (r.kind.Record? ==>
          && ValidMessage(cap, r.kind.msg) && r.len == Required(r.kind.msg)
          && r.len == HEADER_LENGTH + 8 * ChunkCount(r.kind.msg.payload))
  }

  /** Regions follow one another up to the tail without gap or overlap. */
  ghost predicate Contiguous(s: State) {
    forall i {:trigger s.regions[i]} | 0 <= i < |s.regions| ::
      s.regions[i].len > 0 && s.regions[i].pos + s.regions[i].len == Start(s, i + 1)
  }

  ghost predicate Tiled(cap: int, s: State)
    requires cap > 0
  {
    && Contiguous(s)
    && (forall i | 0 <= i < |s.regions| :: Shaped(cap, s.regions[i]))
    && s.consumed <= |s.regions| && s.cursor == Start(s, s.consumed)
  }

  ghost predicate EmptyWords(cap: int, mem: Memory, from: int, to: int)
    requires cap > 0
  {
    forall x {:trigger Index(x, cap)} | from <= x < to && x % 8 == 0 :: Index(x, cap) !in mem
  }

  /** What the words of an unread region hold at each stage. A positive length word appears only in stage Done. */
  ghost predicate InMemory(cap: int, mem: Memory, r: Region)
    requires cap > 0
  {
    var at := Index(r.pos, cap);
    match r.stage
    case Claimed => at !in mem
    case Open(k) =>
      && r.kind.Record? && at in mem && mem[at] == Header(-RecordLength(r.kind.msg), r.kind.msg.typ)
      && ChunksInPlace(mem, at + HEADER_LENGTH, r.kind.msg.payload, k)
    case Done =>
      && at in mem
      && match r.kind
         case Padding => mem[at] == Header(r.len, PADDING_TYPE)
         case Record(m) =>
           && mem[at] == Header(RecordLength(m), m.typ)
           && ChunksInPlace(mem, at + HEADER_LENGTH, m.payload, ChunkCount(m.payload))
  }

  ghost predicate MemoryOk(cap: int, s: State)
    requires cap > 0
  {
    && EmptyWords(cap, s.mem, s.tail, s.head + cap)
    && EmptyWords(cap, s.mem, s.head, s.zeroed)
    && (forall i | s.consumed <= i < |s.regions| :: InMemory(cap, s.mem, s.regions[i]))
    && (forall i | 0 <= i < s.consumed && i < |s.regions| :: s.regions[i].stage == Done)
  }

  /** A head a producer holds is never ahead of the true one. */
  ghost predicate HeadOk(s: State, head: int) {
    0 <= head <= s.head && head % 8 == 0
  }

  /** A head and a tail that were read earlier. */
  ghost predicate ReadEarlier(s: State, head: int, tail: int) {
    HeadOk(s, head) && 0 <= tail <= s.tail && tail % 8 == 0
  }

  ghost predicate Owns(s: State, p: Producer, m: Message, region: nat, stage: Stage) {
    && region < |s.regions| && s.regions[region].owner == p
    && s.regions[region].kind == Record(m) && s.regions[region].stage == stage
  }

  ghost predicate ProducerOk(cap: int, s: State, p: Producer, pc: PC)
    requires cap > 0
  {
    && ValidMessage(cap, pc.m)
    && match pc
       case ReadHeadCache(m) => true
       case ReadTail(m, head) => HeadOk(s, head)
       case ReadHead(m, head, tail) => 0 <= tail <= s.tail && tail % 8 == 0
       case StoreHeadCache(m, head, tail) => ReadEarlier(s, head, tail)
       case ReadHeadForWrap(m, head, tail) =>
         ReadEarlier(s, head, tail) && Required(m) > cap - Index(tail, cap)
       case StoreHeadCacheForWrap(m, head, tail) =>
         ReadEarlier(s, head, tail) && cap - Index(tail, cap) < Required(m) <= Index(head, cap)
       case SwapTail(m, head, tail, padding) =>
         && ReadEarlier(s, head, tail)
         && (if padding == 0 then Required(m) <= cap - Index(tail, cap)
             else padding == cap - Index(tail, cap) && padding < Required(m) <= Index(head, cap))
       case PutPadding(m, region, tailIndex, padding) =>
         && region + 1 < |s.regions|
         && s.regions[region] == Region(s.regions[region].pos, padding, Padding, p, Claimed)
         && tailIndex == Index(s.regions[region].pos, cap)
         && Owns(s, p, m, region + 1, Claimed) && Index(s.regions[region + 1].pos, cap) == 0
       case PutHeader(m, region, i) => Owns(s, p, m, region, Claimed) && i == Index(s.regions[region].pos, cap)
       case PutPayload(m, region, i, k) =>
         && Owns(s, p, m, region, Open(k)) && i == Index(s.regions[region].pos, cap)
         && k < ChunkCount(m.payload)
       case PutLength(m, region, i) =>
         Owns(s, p, m, region, Open(ChunkCount(m.payload))) && i == Index(s.regions[region].pos, cap)
       case Returned(m, ok, region) => ok ==> Owns(s, p, m, region, Done)
  }

  /** The messages of a run of regions, in claim order. */
  function Messages(rs: seq<Region>): (ms: seq<Message>) {
    if rs == [] then []
    else Messages(rs[..|rs| - 1]) + (match rs[|rs| - 1].kind case Padding => [] case Record(m) => [m])
  }

  ghost predicate Inv(cap: int, s: State) {
    && ValidCapacity(cap) && Ordered(cap, s) && Tiled(cap, s) && MemoryOk(cap, s)
    && (forall p | p in s.procs :: ProducerOk(cap, s, p, s.procs[p]))
    && s.delivered == Messages(s.regions[..s.consumed])
  }

  /** A producer is about to win the tail with a claim that reaches past the space the consumer has released. */
  predicate Overrun(cap: int, s: State, l: Label) {
    && l.Step? && l.p in s.procs && s.procs[l.p].SwapTail? && s.procs[l.p].tail == s.tail
    && s.tail + s.procs[l.p].padding + Required(s.procs[l.p].m) > s.head + cap
  }

  /** The free space is too small, but looks large enough once the distance is narrowed to 32 bits. It takes a head
      more than 2^31 + capacity bytes behind the tail. */
  predicate Misjudged(cap: int, tail: int, head: int, required: int) {
    var d := tail - head;
    var low := d % TWO_32;
    required + d > cap && (if low <= TWO_31 + cap then required + low <= cap else required + low - TWO_32 <= cap)
  }

  /** A producer is about to check its claim against a head it has held for that long. */
  predicate Misled(cap: int, s: State, l: Label) {
    && l.Step? && l.p in s.procs && s.procs[l.p].ReadTail?
    && Misjudged(cap, s.tail, s.procs[l.p].head, Required(s.procs[l.p].m))
  }
}

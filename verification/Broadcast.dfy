/** aeron/broadcast: a receiver that chases a transmitter which never waits for it and may lap it.
    The transmitter is the media driver. It raises the tail intent, then writes the words of a padding record and
    of a message in any order and through any intermediate values, then sets the latest counter and the tail. */
module Broadcast {
  import opened Bits
  import opened CircularBuffer

  const SCRATCH_CAPACITY: int := 4096
  const TRAILER_LENGTH: int := 128

  // ---------------------------------------------------------------------------------------------
  // Receiver
  // ---------------------------------------------------------------------------------------------

  /** The counters in the buffer's trailer and the words before it. */
  datatype Shared = Shared(tailIntent: int, tail: int, latest: int, mem: Memory)

  datatype Cursor = Cursor(recordOffset: int, cursor: int, nextRecord: int, lappedCount: nat)

  predicate Validate(cap: int, b: Shared, cursor: int) {
    cursor + cap > b.tailIntent
  }

  /** What the reads of one `receiveNext` return, in program order; the transmitter may act between any two of them. */
  datatype Reads = Reads(tail: int, tailIntent: int, latest: int, length: int, typ: int, firstLength: int)

  /** Landing at a position: past padding the receiver goes on to the record at the start of the buffer. */
  function LandAt(cap: int, r: Cursor, at: int, w: Reads): (r': Cursor)
    requires cap > 0
  {
    var next := at + AlignInt32(w.length, 8);
    if w.typ == PADDING_TYPE
    then r.(recordOffset := 0, cursor := next, nextRecord := next + AlignInt32(w.firstLength, 8))
    else r.(recordOffset := Index(at, cap), cursor := at, nextRecord := next)
  }

  /** `receiveNext` on what its reads return. */
  function ReceiveNext(cap: int, r: Cursor, w: Reads): (res: (bool, Cursor))
    requires cap > 0
  {
    if w.tail <= r.nextRecord then (false, r)
    else if r.nextRecord + cap > w.tailIntent then (true, LandAt(cap, r, r.nextRecord, w))
    else (true, LandAt(cap, r.(lappedCount := r.lappedCount + 1), w.latest, w))
  }

  /** The receiver object, updated in place. */
  class Receiver {
    var recordOffset: int
    var cursor: int
    var nextRecord: int
    var lappedCount: nat

    ghost function View(): (c: Cursor)
      reads this
    {
      Cursor(recordOffset, cursor, nextRecord, lappedCount)
    }

    constructor ()
      ensures View() == Cursor(0, 0, 0, 0)
    {
      recordOffset, cursor, nextRecord, lappedCount := 0, 0, 0, 0;
    }

    method ReceiveNextRecord(cap: int, w: Reads) returns (isAvailable: bool)
      requires cap > 0
      modifies this
      ensures (isAvailable, View()) == ReceiveNext(cap, old(View()), w)
    {
      hide AlignInt32, Index;
      isAvailable := false;
      var at := nextRecord;
      if w.tail > at {
        var offset := Index(at, cap);
        if at + cap <= w.tailIntent {
          lappedCount := lappedCount + 1;
          at := w.latest;
          offset := Index(at, cap);
        }
        cursor := at;
        nextRecord := at + AlignInt32(w.length, 8);
        if w.typ == PADDING_TYPE {
          offset := 0;
          cursor := nextRecord;
          nextRecord := nextRecord + AlignInt32(w.firstLength, 8);
        }
        recordOffset := offset;
        isAvailable := true;
      }
    }
  }

  // ---------------------------------------------------------------------------------------------
  // The system: transmitter and CopyReceiver
  // ---------------------------------------------------------------------------------------------

  /** History: one transmitted message and the padding in front of it. */
  datatype Entry = Entry(pos: int, pad: int, msg: Message)

  function RecordPos(e: Entry): (p: int) { e.pos + e.pad }
  function EndPos(e: Entry): (p: int) { e.pos + e.pad + Required(e.msg) }

  datatype Transmitter = Quiet | Writing(e: Entry) | Announced

  /** Who called `receiveNext`: the loop in `NewCopyReceiver`, or `Receive` after looking at the lapped count. */
  datatype Caller = Scroll | Receive(seen: nat)

  /** The shared access the receiver does next: five inside `receiveNext`, which is at position `at` once it knows, and
      three inside `Receive`, which reads the length, the type and the bytes and then validates. */
  datatype Phase =
    | Scrolling
    | Idle
    | Validating(caller: Caller)
    | ReadingLatest(caller: Caller)
    | Measuring(caller: Caller, at: int)
    | Matching(caller: Caller, at: int)
    | MeasuringFirst(caller: Caller)
    | ReadingLength
    | ReadingType(length: int)
    | Copying(length: int, typ: int, copied: seq<byte>)
    | Panicked

  datatype State = State(
    b: Shared, tx: Transmitter, entries: seq<Entry>,
    r: Cursor, phase: Phase, delivered: seq<Message>,
    first: nat, next: nat)  // history: where delivery starts, and the entry after the one being read

  predicate ValidCapacity(cap: int) {
    128 <= cap < TWO_31 && cap % 8 == 0
  }

  /** What the driver accepts for transmission. */
  predicate ValidMessage(cap: int, m: Message) {
    m.typ >= 1 && |m.payload| <= cap / 8
  }

  predicate Init(s: State) {
    s == State(Shared(0, 0, 0, map[]), Quiet, [], Cursor(0, 0, 0, 0), Scrolling, [], 0, 0)
  }

  /** Padding up to the buffer end exactly when the record would cross it. */
  function Padding(cap: int, tail: int, m: Message): (p: int)
    requires cap > 0
  {
    var toEnd := cap - Index(tail, cap);
    if toEnd < Required(m) then toEnd else 0
  }

  datatype Label =
    | RaiseIntent(m: Message)
    | Scribble(y: int, w: Word)
    | SetLatest
    | SetTail
    | ReadTail
    | CheckValid
    | ReadLatest
    | SeeLandingLength(length: int)
    | SeeLandingType(typ: int)
    | SeeFirstLength(length: int)
    | SeeLength(length: int)
    | SeeType(typ: int)
    | CopyByte(x: byte)
    | Finish

  /** The record's words, all in place at its index. */
  ghost predicate RecordInPlace(cap: int, mem: Memory, e: Entry)
    requires cap > 0
  {
    var at := Index(RecordPos(e), cap);
    && at in mem && mem[at] == Header(RecordLength(e.msg), e.msg.typ)
    && ChunksInPlace(mem, at + HEADER_LENGTH, e.msg.payload, ChunkCount(e.msg.payload))
  }

  ghost predicate PaddingInPlace(cap: int, mem: Memory, e: Entry)
    requires cap > 0
  {
    e.pad > 0 ==> Index(e.pos, cap) in mem && mem[Index(e.pos, cap)] == Header(e.pad, PADDING_TYPE)
  }

  /** Four bytes as an int32, least significant first. */
  function Int32Of(bytes: seq<byte>, i: nat): (n: int)
    requires i + 4 <= |bytes|
  {
    var a: int, b: int, c: int, d: int := bytes[i], bytes[i + 1], bytes[i + 2], bytes[i + 3];
    ToInt32(a + 0x100 * b + 0x1_0000 * c + 0x100_0000 * d)
  }

  /** The length and the type the receiver may read at an index, be it from a header or from a payload word. */
  predicate SeesLength(mem: Memory, at: int, n: int) {
    && -TWO_31 <= n < TWO_31
    && (at in mem ==> match mem[at]
                      case Header(length, _) => n == length
                      case Data(bytes) => |bytes| >= 4 ==> n == Int32Of(bytes, 0))
  }

  predicate SeesType(mem: Memory, at: int, t: int) {
    at in mem ==> match mem[at]
                  case Header(_, typ) => t == typ
                  case Data(bytes) => |bytes| >= 8 ==> t == Int32Of(bytes, 4)
  }

  /** The j-th payload byte the receiver would read; a torn word may show anything. */
  predicate SeesByte(mem: Memory, at: int, j: nat, x: byte) {
    var w := at + (j - j % 8);
    w in mem && mem[w].Data? && j % 8 < |mem[w].bytes| ==> x == mem[w].bytes[j % 8]
  }

  ghost predicate Enabled(cap: int, s: State, l: Label)
    requires cap > 0
  {
    match l
    case RaiseIntent(m) => s.tx.Quiet? && ValidMessage(cap, m)
    case Scribble(y, w) => s.tx.Writing? && s.b.tail <= y < s.b.tailIntent && y % 8 == 0
    case SetLatest => s.tx.Writing? && PaddingInPlace(cap, s.b.mem, s.tx.e) && RecordInPlace(cap, s.b.mem, s.tx.e)
    case SetTail => s.tx.Announced?
    case ReadTail => s.phase.Scrolling? || s.phase.Idle?
    case CheckValid => s.phase.Validating?
    case ReadLatest => s.phase.ReadingLatest?
    case SeeLandingLength(n) => s.phase.Measuring? && SeesLength(s.b.mem, Index(s.phase.at, cap), n)
    case SeeLandingType(t) => s.phase.Matching? && SeesType(s.b.mem, Index(s.phase.at, cap), t)
    case SeeFirstLength(n) => s.phase.MeasuringFirst? && SeesLength(s.b.mem, 0, n)
    case SeeLength(n) => s.phase.ReadingLength? && SeesLength(s.b.mem, s.r.recordOffset, n)
    case SeeType(t) => s.phase.ReadingType? && SeesType(s.b.mem, s.r.recordOffset, t)
    case CopyByte(x) =>
      && s.phase.Copying? && |s.phase.copied| < s.phase.length
      && SeesByte(s.b.mem, s.r.recordOffset + HEADER_LENGTH, |s.phase.copied|, x)
    case Finish => s.phase.Copying? && |s.phase.copied| >= s.phase.length
  }

  // What the receiver does with each value `receiveNext` reads.

  function GotTail(r: Cursor, phase: Phase, tail: int): (p: Phase) {
    if tail <= r.nextRecord then Idle
    else Validating(if phase.Scrolling? then Scroll else Receive(r.lappedCount))
  }

  function GotIntent(cap: int, r: Cursor, caller: Caller, tailIntent: int): (res: (Cursor, Phase)) {
    if r.nextRecord + cap > tailIntent then (r.(cursor := r.nextRecord), Measuring(caller, r.nextRecord))
    else (r.(lappedCount := r.lappedCount + 1), ReadingLatest(caller))
  }

  function GotLatest(r: Cursor, caller: Caller, latest: int): (res: (Cursor, Phase)) {
    (r.(cursor := latest), Measuring(caller, latest))
  }

  function GotLength(r: Cursor, caller: Caller, at: int, n: int): (res: (Cursor, Phase)) {
    (r.(nextRecord := at + AlignInt32(n, 8)), Matching(caller, at))
  }

  function GotType(cap: int, r: Cursor, caller: Caller, at: int, t: int): (res: (Cursor, Phase))
    requires cap > 0
  {
    if t == PADDING_TYPE then (r.(cursor := r.nextRecord), MeasuringFirst(caller))
    else (r.(recordOffset := Index(at, cap)), AfterReceiveNext(r, caller))
  }

  function GotFirstLength(r: Cursor, caller: Caller, n: int): (res: (Cursor, Phase)) {
    (r.(recordOffset := 0, nextRecord := r.nextRecord + AlignInt32(n, 8)), AfterReceiveNext(r, caller))
  }

  /** `Receive` panics when `receiveNext` counted a lap; the scrolling loop does not look. */
  function AfterReceiveNext(r: Cursor, caller: Caller): (p: Phase) {
    match caller
    case Scroll => Scrolling
    case Receive(seen) => if r.lappedCount != seen then Panicked else ReadingLength
  }

  ghost function Next(cap: int, s: State, l: Label): (s': State)
    requires cap > 0 && Enabled(cap, s, l)
  {
    match l
    case RaiseIntent(m) =>
      var e := Entry(s.b.tail, Padding(cap, s.b.tail, m), m);
      s.(b := s.b.(tailIntent := EndPos(e)), tx := Writing(e))
    case Scribble(y, w) => s.(b := s.b.(mem := s.b.mem[Index(y, cap) := w]))
    case SetLatest => s.(b := s.b.(latest := RecordPos(s.tx.e)), entries := s.entries + [s.tx.e], tx := Announced)
    case SetTail => s.(b := s.b.(tail := s.b.tailIntent), tx := Quiet)
    case ReadTail =>
      var p := GotTail(s.r, s.phase, s.b.tail);
      s.(phase := p, first := if s.phase.Scrolling? && p.Idle? then s.next else s.first)
    case CheckValid =>
      var (r', p) := GotIntent(cap, s.r, s.phase.caller, s.b.tailIntent);
      s.(r := r', phase := p, next := if p.Measuring? then s.next + 1 else s.next)
    case ReadLatest =>
      var (r', p) := GotLatest(s.r, s.phase.caller, s.b.latest);
      s.(r := r', phase := p, next := |s.entries|)
    case SeeLandingLength(n) =>
      var (r', p) := GotLength(s.r, s.phase.caller, s.phase.at, n);
      s.(r := r', phase := p)
    case SeeLandingType(t) =>
      var (r', p) := GotType(cap, s.r, s.phase.caller, s.phase.at, t);
      s.(r := r', phase := p)
    case SeeFirstLength(n) =>
      var (r', p) := GotFirstLength(s.r, s.phase.caller, n);
      s.(r := r', phase := p)
    case SeeLength(n) =>
      var length := ToInt32(n - HEADER_LENGTH);
      s.(phase := if length > SCRATCH_CAPACITY then Panicked else ReadingType(length))
    case SeeType(t) =>
      s.(phase := if s.r.recordOffset + HEADER_LENGTH + s.phase.length > cap + TRAILER_LENGTH then Panicked
                  else Copying(s.phase.length, t, []))
    case CopyByte(x) => s.(phase := s.phase.(copied := s.phase.copied + [x]))
    case Finish =>
      if Validate(cap, s.b, s.r.cursor)
      then s.(phase := Idle, delivered := s.delivered + [Message(s.phase.typ, s.phase.copied)])
      else s.(phase := Panicked)
  }

  // ---------------------------------------------------------------------------------------------
  // The invariant
  // ---------------------------------------------------------------------------------------------

  /** Where entry i starts, or where the next one will. */
  ghost function Start(es: seq<Entry>, i: nat): int {
    if i < |es| then es[i].pos else if es == [] then 0 else EndPos(es[|es| - 1])
  }

  ghost predicate Shaped(cap: int, e: Entry)
    requires cap > 0
  {
    && 0 <= e.pos && e.pos % 8 == 0 && ValidMessage(cap, e.msg)
    && e.pad >= 0 && (e.pad > 0 ==> e.pad == cap - Index(e.pos, cap) && e.pad < Required(e.msg))
    && Index(RecordPos(e), cap) + Required(e.msg) <= cap && Required(e.msg) <= cap / 8 + 16
    && Required(e.msg) == HEADER_LENGTH + 8 * ChunkCount(e.msg.payload)
  }

  ghost predicate Chained(es: seq<Entry>) {
    forall i {:trigger es[i]} | 0 <= i < |es| :: EndPos(es[i]) == Start(es, i + 1) && es[i].pos < EndPos(es[i])
  }

  /** An entry's words stay in place until the transmitter claims the space one lap ahead of them. */
  ghost predicate Intact(cap: int, b: Shared, e: Entry)
    requires cap > 0
  {
    && (e.pos + cap >= b.tailIntent ==> PaddingInPlace(cap, b.mem, e))
    && (RecordPos(e) + cap >= b.tailIntent ==> RecordInPlace(cap, b.mem, e))
  }

  ghost predicate TransmitterOk(cap: int, s: State)
    requires cap > 0
  {
    && Chained(s.entries)
    && (forall i | 0 <= i < |s.entries| :: Shaped(cap, s.entries[i]) && Intact(cap, s.b, s.entries[i]))
    && s.b.tail >= 0 && s.b.tail % 8 == 0
    && (s.entries != [] ==> s.b.latest == RecordPos(s.entries[|s.entries| - 1]))
    && match s.tx
       case Quiet => s.b.tail == s.b.tailIntent == Start(s.entries, |s.entries|)
       case Writing(e) =>
         && s.b.tail == e.pos == Start(s.entries, |s.entries|) && s.b.tailIntent == EndPos(e) && Shaped(cap, e)
       case Announced =>
         && s.entries != [] && s.b.tail == s.entries[|s.entries| - 1].pos
         && s.b.tailIntent == Start(s.entries, |s.entries|)
  }

  predicate InReceiveNext(p: Phase) {
    p.Validating? || p.ReadingLatest? || p.Measuring? || p.Matching? || p.MeasuringFirst?
  }

  /** The receiver is reading the entry before `next`. */
  predicate Busy(p: Phase) {
    p.Measuring? || p.Matching? || p.MeasuringFirst? || p.ReadingLength? || p.ReadingType? || p.Copying?
  }

  predicate ScrollPhase(p: Phase) {
    p.Scrolling? || (InReceiveNext(p) && p.caller.Scroll?)
  }

  /** `receiveNext` has counted a lap, so `Receive` is going to panic. */
  predicate Doomed(s: State) {
    InReceiveNext(s.phase) && s.phase.caller.Receive? && s.phase.caller.seen != s.r.lappedCount
  }

  /** The receiver stands on the record of entry e and knows where the next one starts. */
  predicate StandsOn(cap: int, r: Cursor, e: Entry)
    requires cap > 0
  {
    r.cursor == RecordPos(e) && r.recordOffset == Index(RecordPos(e), cap) && r.nextRecord == EndPos(e)
  }

  /** What the receiver has read of entry e so far is right, provided it has not been lapped since. */
  ghost predicate ReadingOk(cap: int, s: State, e: Entry)
    requires cap > 0
  {
    match s.phase
    case Measuring(_, at) => s.r.cursor == at && (at == e.pos || at == RecordPos(e))
    case Matching(_, at) =>
      && s.r.cursor == at && (at == e.pos || at == RecordPos(e))
      && (Validate(cap, s.b, at) ==> s.r.nextRecord == if at == RecordPos(e) then EndPos(e) else RecordPos(e))
    case MeasuringFirst(_) =>
      Validate(cap, s.b, s.r.cursor) ==> s.r.cursor == s.r.nextRecord == RecordPos(e) && Index(RecordPos(e), cap) == 0
    case ReadingLength => Validate(cap, s.b, s.r.cursor) ==> StandsOn(cap, s.r, e)
    case ReadingType(length) =>
      Validate(cap, s.b, s.r.cursor) ==> StandsOn(cap, s.r, e) && length == |e.msg.payload|
    case Copying(length, typ, copied) =>
      Validate(cap, s.b, s.r.cursor) ==>
        StandsOn(cap, s.r, e) && length == |e.msg.payload| && typ == e.msg.typ && copied <= e.msg.payload
    case _ => true
  }

  ghost predicate ReceiverOk(cap: int, s: State)
    requires cap > 0
  {
    && s.next <= |s.entries|
    && (s.phase.Validating? ==> s.next < |s.entries| && !Doomed(s))
    && (s.phase.ReadingLatest? ==> s.entries != [] && (s.phase.caller.Receive? ==> Doomed(s)))
    && (!Busy(s.phase) && !s.phase.Panicked? ==> s.r.nextRecord == Start(s.entries, s.next))
    && (Busy(s.phase) ==> s.next > 0 && (!Doomed(s) ==> ReadingOk(cap, s, s.entries[s.next - 1])))
  }

  function Messages(es: seq<Entry>): (ms: seq<Message>)
    ensures |ms| == |es| && forall i | 0 <= i < |es| :: ms[i] == es[i].msg
  {
    seq(|es|, i requires 0 <= i < |es| => es[i].msg)
  }

  /** How many entries the receiver is done with. */
  ghost function Taken(s: State): int {
    if Busy(s.phase) then s.next - 1 else s.next
  }

  ghost predicate DeliveryOk(s: State) {
    && s.first + |s.delivered| <= |s.entries|
    && s.delivered == Messages(s.entries[s.first..s.first + |s.delivered|])
    && (!s.phase.Panicked? && !Doomed(s) && !ScrollPhase(s.phase) ==> s.first + |s.delivered| == Taken(s))
    && (ScrollPhase(s.phase) ==> s.delivered == [])
  }

  ghost predicate Inv(cap: int, s: State) {
    ValidCapacity(cap) && TransmitterOk(cap, s) && ReceiverOk(cap, s) && DeliveryOk(s)
  }

  // ---------------------------------------------------------------------------------------------
  // Being fooled
  // ---------------------------------------------------------------------------------------------

  /** Between records the receiver points at the start of an entry. While it reads one, a cursor that still validates
      is where that entry's record is. */
  ghost predicate OnTrack(cap: int, s: State) {
    && s.next <= |s.entries|
    && (!Busy(s.phase) && !s.phase.Panicked? ==> s.r.nextRecord == Start(s.entries, s.next))
    && (Busy(s.phase) && !Doomed(s) && !s.phase.Measuring? && !s.phase.Matching? && Validate(cap, s.b, s.r.cursor) ==>
          s.next > 0 && s.r.cursor == RecordPos(s.entries[s.next - 1]))
  }

  /** The position has been overwritten since it was validated. Its words look like padding, up to a position that is
      not the entry's record and yet validates; or the scrolling loop goes on to where no entry starts. */
  ghost predicate Fooled(cap: int, s: State, l: Label) {
    && 0 < s.next <= |s.entries| && !Doomed(s)
    && match l
       case SeeLandingType(t) =>
         && s.phase.Matching? && !Validate(cap, s.b, s.phase.at)
         && (if t == PADDING_TYPE
             then Validate(cap, s.b, s.r.nextRecord) && s.r.nextRecord != RecordPos(s.entries[s.next - 1])
             else s.phase.caller.Scroll? && s.r.nextRecord != Start(s.entries, s.next))
       case SeeFirstLength(n) =>
         && s.phase.MeasuringFirst? && !Validate(cap, s.b, s.r.cursor) && s.phase.caller.Scroll?
         && s.r.nextRecord + AlignInt32(n, 8) != Start(s.entries, s.next)
       case _ => false
  }
}

/** Term rotation (aeron/logbuffer/descriptor.go:183-201) driven by any number of publishers running `Offer`
    (aeron/publication.go:170-207), one atomic access per step. */
module Rotation {
  import opened Bits

  type Publisher = nat

  const PARTITION_COUNT: int := 3

  /** initialTermId is the int32 the driver chose; maxLength bounds what one append can claim. */
  datatype Config = Config(initialTermId: int, termLength: int, maxLength: int)

  predicate ValidConfig(c: Config) {
    && -TWO_31 <= c.initialTermId < TWO_31
    && 0x1_0000 <= c.termLength <= 0x4000_0000 && 0 < c.maxLength <= c.termLength
  }

  // ---------------------------------------------------------------------------------------------
  // Raw tails and term ids
  // ---------------------------------------------------------------------------------------------

  /** `int32(rawTail >> 32)`. */
  function TermID(rawTail: int): (id: int) {
    ToInt32(rawTail / TWO_32)
  }

  /** `rawTail & 0xFFFFFFFF`. */
  function TermOffset(rawTail: int): (o: int)
    ensures 0 <= o < TWO_32
  {
    rawTail % TWO_32
  }

  /** The int32 id of the n-th term; ids wrap past the int32 range. */
  function IdOf(c: Config, n: int): (id: int) {
    ToInt32(c.initialTermId + n)
  }

  function Partition(n: int): (i: int)
    ensures 0 <= i < 3
  {
    n % PARTITION_COUNT
  }

  // ---------------------------------------------------------------------------------------------
  // State
  // ---------------------------------------------------------------------------------------------

  /** Where a publisher is inside `Offer`; k is history, the number of the term its append landed in. */
  datatype PC =
    | ReadCount
    | ReadTail(count: int)
    | Append(count: int, position: int, offset: int)
    | RotateRead(count: int, termId: int, k: int)
    | RotateSwap(count: int, termId: int, k: int, rawTail: int)
    | RotateCount(count: int, termId: int, k: int)
    | Returned

  datatype State = State(
    tails: seq<int>, activeCount: int,
    procs: map<Publisher, PC>,
    terms: seq<int>)  // history: the term number each partition's tail is in

  /** The driver's initial tails: the first term is active, the other two look like its predecessors. */
  predicate Init(c: Config, s: State) {
    s == State([IdOf(c, 0) * TWO_32, IdOf(c, -2) * TWO_32, IdOf(c, -1) * TWO_32], 0, map[], [0, -2, -1])
  }

  datatype Label =
    | Call(p: Publisher)
    | Step(p: Publisher)
    | DoAppend(p: Publisher, length: int)
    | GiveUp(p: Publisher)  // closed, back pressured, or beyond the last possible position

  predicate WellFormed(s: State) {
    |s.tails| == 3 && |s.terms| == 3
  }

  predicate Enabled(c: Config, s: State, l: Label) {
    && WellFormed(s)
    && match l
       case Call(p) => p !in s.procs || s.procs[p].Returned?
       case Step(p) =>
         && p in s.procs && !s.procs[p].Returned? && !s.procs[p].Append?
         && (s.procs[p].RotateRead? || s.procs[p].RotateSwap? || s.procs[p].RotateCount? ==>
               s.procs[p].count + 1 < TWO_31)
       case DoAppend(p, n) =>
         // the low half of a tail never carries into the term id
         && p in s.procs && s.procs[p].Append? && 0 < n <= c.maxLength
         && TermOffset(s.tails[Partition(s.procs[p].count)]) + n < TWO_32
       case GiveUp(p) => p in s.procs && (s.procs[p].Append? || s.procs[p].RotateRead?)
  }

  function Goto(s: State, p: Publisher, pc: PC): (s': State) {
    s.(procs := s.procs[p := pc])
  }

  /** `getAndAddRawTail`; the claim trips when it runs past the end of the term. */
  function AppendStep(c: Config, s: State, p: Publisher, n: int): (s': State)
    requires Enabled(c, s, DoAppend(p, n))
  {
    var count := s.procs[p].count;
    var i := Partition(count);
    var raw := s.tails[i];
    var s1 := s.(tails := s.tails[i := raw + n]);
    if TermOffset(raw) + n > c.termLength then Goto(s1, p, RotateRead(count, TermID(raw), s.terms[i]))
    else Goto(s1, p, Returned)
  }

  function Next(c: Config, s: State, l: Label): (s': State)
    requires Enabled(c, s, l)
  {
    match l
    case Call(p) => Goto(s, p, ReadCount)
    case GiveUp(p) => Goto(s, p, Returned)
    case DoAppend(p, n) => AppendStep(c, s, p, n)
    case Step(p) =>
      match s.procs[p]
      case ReadCount => Goto(s, p, ReadTail(s.activeCount))
      case ReadTail(count) =>
        var raw := s.tails[Partition(count)];
        if count != ToInt32(TermID(raw) - c.initialTermId) then Goto(s, p, Returned)
        else Goto(s, p, Append(count, count * c.termLength + TermOffset(raw), TermOffset(raw)))
      case RotateRead(count, termId, k) =>
        var raw := s.tails[Partition(count + 1)];
        var expected := ToInt32(ToInt32(termId + 1) - PARTITION_COUNT);
        if expected != TermID(raw) then Goto(s, p, RotateCount(count, termId, k))
        else Goto(s, p, RotateSwap(count, termId, k, raw))
      case RotateSwap(count, termId, k, raw) =>
        var i := Partition(count + 1);
        if s.tails[i] != raw then Goto(s, p, RotateRead(count, termId, k))
        else
          var s1 := s.(tails := s.tails[i := ToInt32(termId + 1) * TWO_32], terms := s.terms[i := k + 1]);
          Goto(s1, p, RotateCount(count, termId, k))
      case RotateCount(count, termId, k) =>
        Goto(if s.activeCount == count then s.(activeCount := count + 1) else s, p, Returned)
      case Returned => s
  }

  // ---------------------------------------------------------------------------------------------
  // Invariant
  // ---------------------------------------------------------------------------------------------

  /** For the active term n the partitions hold n, n-1, and either n-2 or, once the next tail was reset, n+1. */
  predicate TermsOk(s: State) {
    && WellFormed(s)
    && s.terms[Partition(s.activeCount)] == s.activeCount
    && s.terms[Partition(s.activeCount - 1)] == s.activeCount - 1
    && (s.terms[Partition(s.activeCount + 1)] == s.activeCount - 2
        || s.terms[Partition(s.activeCount + 1)] == s.activeCount + 1)
  }

  /** Every tail carries the int32 id of its term. */
  predicate TailsOk(c: Config, s: State) {
    WellFormed(s) && forall i | 0 <= i < 3 :: TermID(s.tails[i]) == IdOf(c, s.terms[i])
  }

  /** A rotator works for a term in its own partition that is at most one ahead of the active one. */
  predicate RotatorOk(c: Config, s: State, count: int, termId: int, k: int) {
    && 0 <= count <= s.activeCount && count <= k <= s.activeCount + 1 && Partition(count) == Partition(k)
    && termId == IdOf(c, k)
  }

  predicate PublisherOk(c: Config, s: State, pc: PC)
    requires WellFormed(s)
  {
    match pc
    case ReadTail(count) => 0 <= count <= s.activeCount
    case Append(count, position, offset) =>
      && 0 <= count <= s.activeCount && 0 <= offset && position == count * c.termLength + offset
      && count <= s.terms[Partition(count)]
    case RotateRead(count, termId, k) => RotatorOk(c, s, count, termId, k)
    case RotateSwap(count, termId, k, raw) =>
      RotatorOk(c, s, count, termId, k) && TermID(raw) == IdOf(c, k - 2)
    case RotateCount(count, termId, k) =>
      && RotatorOk(c, s, count, termId, k)
      && (s.activeCount == count ==> s.terms[Partition(count + 1)] == count + 1)
    case _ => true
  }

  predicate Inv(c: Config, s: State) {
    && ValidConfig(c) && 0 <= s.activeCount < TWO_31 && TermsOk(s) && TailsOk(c, s)
    && forall p | p in s.procs :: PublisherOk(c, s, s.procs[p])
  }

  /** A rotator is about to win the next tail for a term that is not active yet. */
  predicate EarlySwap(s: State, l: Label) {
    && WellFormed(s) && l.Step? && l.p in s.procs && s.procs[l.p].RotateSwap? && s.procs[l.p].k > s.activeCount
    && s.tails[Partition(s.procs[l.p].count + 1)] == s.procs[l.p].rawTail
  }

  /** The append about to happen trips in a term that is not active yet: its publisher passed the term check
      three terms ago and has been stalled since. */
  predicate TripsEarly(c: Config, s: State, l: Label)
    requires Enabled(c, s, l)
  {
    && l.DoAppend?
    && var i := Partition(s.procs[l.p].count);
       TermOffset(s.tails[i]) + l.length > c.termLength && s.terms[i] > s.activeCount
  }
}

/** Theorems over whole runs of the ring buffer. */
module ManyToOneTheorems {
  import opened Bits
  import opened CircularBuffer
  import opened ManyToOneRingBuffer
  import opened ManyToOneProof

  // ---------------------------------------------------------------------------------------------
  // The abstract queue
  // ---------------------------------------------------------------------------------------------

  /** Enqueue at the winning compare-and-set, Complete when `Write` returns true, Dequeue when the consumer reads. */
  datatype Event = Enqueue(m: Message) | Complete(m: Message) | Dequeue(m: Message) | Internal

  predicate QueueStep(q: seq<Message>, e: Event, q': seq<Message>) {
    match e
    case Enqueue(m) => q' == q + [m]
    case Dequeue(m) => q == [m] + q'
    case _ => q' == q
  }

  /** What a step shows to the outside; a dequeued message is decoded from the buffer's words. */
  function EventOf(cap: int, s: State, l: Label): (e: Event)
    requires cap > 0 && Enabled(cap, s, l)
  {
    match l
    case Step(p) =>
      if s.procs[p].SwapTail? && s.procs[p].tail == s.tail then Enqueue(s.procs[p].m)
      else if s.procs[p].PutLength? then Complete(s.procs[p].m)
      else Internal
    case Read(length, typ) =>
      if typ == PADDING_TYPE then Internal else Dequeue(Decode(s.mem, Index(s.cursor, cap), length, typ))
    case _ => Internal
  }

  /** Refinement map: claimed but not yet read. */
  ghost function Pending(s: State): seq<Message>
    requires s.consumed <= |s.regions|
  {
    Messages(s.regions[s.consumed..])
  }

  lemma {:induction false} MessagesConcat(a: seq<Region>, b: seq<Region>)
    ensures Messages(a + b) == Messages(a) + Messages(b)
    decreases |b|
  {
    if b == [] {
      assert a + b == a;
    } else {
      var last := |b| - 1;
      assert (a + b)[..|a + b| - 1] == a + b[..last];
      MessagesConcat(a, b[..last]);
    }
  }

  lemma {:induction false} MessagesIgnoreStage(rs: seq<Region>, r: nat, stage: Stage)
    requires r < |rs|
    ensures Messages(rs[r := rs[r].(stage := stage)]) == Messages(rs)
    decreases |rs|
  {
    var rs' := rs[r := rs[r].(stage := stage)];
    var last := |rs| - 1;
    if r == last {
      assert rs'[..last] == rs[..last];
    } else {
      assert rs'[..last] == rs[..last][r := rs[r].(stage := stage)];
      MessagesIgnoreStage(rs[..last], r, stage);
    }
  }

  lemma NewRegionsMessages(p: Producer, m: Message, tail: int, padding: int)
    ensures Messages(NewRegions(p, m, tail, padding)) == [m]
  {
    hide Required;
    var rs := NewRegions(p, m, tail, padding);
    if padding != 0 {
      assert rs[..1] == [Region(tail, padding, Padding, p, Claimed)];
      assert rs[..1][..0] == [];
      assert Messages(rs[..1]) == [];
    } else {
      assert rs[..0] == [];
    }
  }

  /** A store step only changes the stage of one unread region. */
  lemma StoreStepRefines(cap: int, s: State, p: Producer)
    requires Inv(cap, s) && Enabled(cap, s, Step(p))
    requires s.procs[p].PutPadding? || s.procs[p].PutHeader? || s.procs[p].PutPayload? || s.procs[p].PutLength?
    ensures s.consumed <= |s.regions| == |Produce(cap, s, p).regions|
    ensures Produce(cap, s, p).consumed == s.consumed
    ensures Pending(Produce(cap, s, p)) == Pending(s)
  {
    hide Inv, Index, Required, Messages, InMemory, Shaped, ToInt32, RecordLength;
    InvProducer(cap, s, p);
    var s' := Produce(cap, s, p);
    var r := s.procs[p].region;
    assert s'.regions == s.regions[r := s.regions[r].(stage := s'.regions[r].stage)];
    UnfinishedIsUnread(cap, s, r);
    var k := r - s.consumed;
    assert s'.regions[s.consumed..]
        == s.regions[s.consumed..][k := s.regions[s.consumed..][k].(stage := s'.regions[r].stage)];
    MessagesIgnoreStage(s.regions[s.consumed..], k, s'.regions[r].stage);
  }

  lemma InvConsumed(cap: int, s: State)
    requires Inv(cap, s)
    ensures ValidCapacity(cap) && s.consumed <= |s.regions|
  {
  }

  lemma SwapRefines(cap: int, s: State, p: Producer)
    requires Inv(cap, s) && Enabled(cap, s, Step(p)) && s.procs[p].SwapTail? && s.procs[p].tail == s.tail
    ensures s.consumed <= |s.regions| <= |Produce(cap, s, p).regions|
    ensures Produce(cap, s, p).consumed == s.consumed
    ensures Pending(Produce(cap, s, p)) == Pending(s) + [s.procs[p].m]
  {
    hide Inv, Index, Required, Messages, ToInt32;
    InvConsumed(cap, s);
    var pc := s.procs[p];
    var s' := Produce(cap, s, p);
    var added := NewRegions(p, pc.m, s.tail, pc.padding);
    assert s'.regions[s.consumed..] == s.regions[s.consumed..] + added;
    MessagesConcat(s.regions[s.consumed..], added);
    NewRegionsMessages(p, pc.m, s.tail, pc.padding);
  }

  lemma ReadRefines(cap: int, s: State, length: int, typ: int)
    requires Inv(cap, s) && Enabled(cap, s, Read(length, typ))
    ensures s.consumed < |s.regions|
    ensures QueueStep(Pending(s), EventOf(cap, s, Read(length, typ)), Pending(Next(cap, s, Read(length, typ))))
  {
    hide Inv, Index, AlignInt32, Decode;
    ReadSeesNextRegion(cap, s, length, typ);
    var rest := s.regions[s.consumed + 1..];
    assert s.regions[s.consumed..] == [s.regions[s.consumed]] + rest;
    MessagesConcat([s.regions[s.consumed]], rest);
    assert [s.regions[s.consumed]][..0] == [];
  }

  /** Every step refines a step of an unbounded FIFO queue. */
  lemma StepRefinesQueue(cap: int, s: State, l: Label)
    requires Inv(cap, s) && cap > 0 && Enabled(cap, s, l)
    ensures s.consumed <= |s.regions| && Next(cap, s, l).consumed <= |Next(cap, s, l).regions|
    ensures QueueStep(Pending(s), EventOf(cap, s, l), Pending(Next(cap, s, l)))
  {
    hide Inv, Index, Required, Messages, ToInt32, AlignInt32, Decode;
    InvConsumed(cap, s);
    match l
    case Step(p) =>
      var pc := s.procs[p];
      if pc.SwapTail? && pc.tail == s.tail {
        SwapRefines(cap, s, p);
      } else if pc.PutPadding? || pc.PutHeader? || pc.PutPayload? || pc.PutLength? {
        StoreStepRefines(cap, s, p);
      } else {
        assert Next(cap, s, l).regions == s.regions;
      }
    case Read(length, typ) => ReadRefines(cap, s, length, typ);
    case _ =>
  }

  // ---------------------------------------------------------------------------------------------
  // Runs
  // ---------------------------------------------------------------------------------------------

  ghost predicate IsRun(cap: int, states: seq<State>, labels: seq<Label>)
    requires cap > 0
  {
    && |states| == |labels| + 1 && Init(states[0])
    && forall i {:trigger labels[i]} | 0 <= i < |labels| ::
         Enabled(cap, states[i], labels[i]) && states[i + 1] == Next(cap, states[i], labels[i])
  }

  lemma InitEstablishesInv(cap: int, s: State)
    requires ValidCapacity(cap) && Init(s)
    ensures Inv(cap, s)
  {
    hide Index;
  }

  /** In every state of every run: positions stay ordered, claims tile the position space, memory is as staged. */
  lemma {:induction false} RunKeepsInv(cap: int, states: seq<State>, labels: seq<Label>, i: nat)
    requires ValidCapacity(cap) && IsRun(cap, states, labels) && i < |states|
    requires forall j | 0 <= j < i :: !Overrun(cap, states[j], labels[j])
    ensures Inv(cap, states[i])
  {
    hide Inv, Overrun, Next, Enabled;
    if i == 0 {
      InitEstablishesInv(cap, states[0]);
    } else {
      RunKeepsInv(cap, states, labels, i - 1);
      assert Enabled(cap, states[i - 1], labels[i - 1]);
      StepKeepsInv(cap, states[i - 1], labels[i - 1]);
    }
  }

  /** No claim of the run reaches past the space the consumer has released. */
  ghost predicate NoOverrun(cap: int, states: seq<State>, labels: seq<Label>)
    requires cap > 0 && IsRun(cap, states, labels)
  {
    forall j | 0 <= j < |labels| :: !Overrun(cap, states[j], labels[j])
  }

  /** The claims of a run always fit in the buffer if and only if none of them is an overrun, and that is exactly when
      every state satisfies the whole invariant. */
  lemma RunKeepsInvIff(cap: int, states: seq<State>, labels: seq<Label>)
    requires ValidCapacity(cap) && IsRun(cap, states, labels)
    ensures (forall i | 0 <= i < |states| :: states[i].tail <= states[i].head + cap) <==> NoOverrun(cap, states, labels)
    ensures (forall i | 0 <= i < |states| :: Inv(cap, states[i])) <==> NoOverrun(cap, states, labels)
  {
    hide Inv, Overrun, Next, Enabled;
    if NoOverrun(cap, states, labels) {
      forall i | 0 <= i < |states|
        ensures Inv(cap, states[i]) && states[i].tail <= states[i].head + cap
      {
        RunKeepsInv(cap, states, labels, i);
        InvOrdered(cap, states[i]);
      }
    } else {
      var j :| 0 <= j < |labels| && Overrun(cap, states[j], labels[j]);
      assert Enabled(cap, states[j], labels[j]) && states[j + 1] == Next(cap, states[j], labels[j]);
      OverrunPassesHead(cap, states[j], labels[j]);
      if Inv(cap, states[j + 1]) {
        InvOrdered(cap, states[j + 1]);
      }
    }
  }

  /** No producer of the run checks a claim against a head so old that the narrowed distance misleads it. */
  ghost predicate NobodyMisled(cap: int, states: seq<State>, labels: seq<Label>)
    requires cap > 0 && IsRun(cap, states, labels)
  {
    forall j | 0 <= j < |labels| :: !Misled(cap, states[j], labels[j])
  }

  lemma {:induction false} ClaimsFitUpTo(cap: int, states: seq<State>, labels: seq<Label>, i: nat)
    requires ValidCapacity(cap) && IsRun(cap, states, labels) && NobodyMisled(cap, states, labels) && i < |states|
    ensures Inv(cap, states[i]) && AllFit(cap, states[i])
  {
    hide Inv, Misled, Next, Enabled, Fits;
    if i == 0 {
      InitEstablishesInv(cap, states[0]);
    } else {
      ClaimsFitUpTo(cap, states, labels, i - 1);
      assert Enabled(cap, states[i - 1], labels[i - 1]);
      FittingClaimIsNoOverrun(cap, states[i - 1], labels[i - 1]);
      StepKeepsInv(cap, states[i - 1], labels[i - 1]);
      StepKeepsAllFit(cap, states[i - 1], labels[i - 1]);
    }
  }

  /** A run in which nobody is misled has no overrun. */
  lemma NobodyMisledNoOverrun(cap: int, states: seq<State>, labels: seq<Label>)
    requires ValidCapacity(cap) && IsRun(cap, states, labels) && NobodyMisled(cap, states, labels)
    ensures NoOverrun(cap, states, labels)
  {
    hide Inv, Misled, Overrun, Next, Enabled, AllFit;
    forall j | 0 <= j < |labels|
      ensures !Overrun(cap, states[j], labels[j])
    {
      ClaimsFitUpTo(cap, states, labels, j);
      assert Enabled(cap, states[j], labels[j]);
      FittingClaimIsNoOverrun(cap, states[j], labels[j]);
    }
  }

  ghost function Trace(cap: int, states: seq<State>, labels: seq<Label>): (t: seq<Event>)
    requires cap > 0 && IsRun(cap, states, labels)
    ensures |t| == |labels|
  {
    seq(|labels|, i requires 0 <= i < |labels| =>
          assert Enabled(cap, states[i], labels[i]); EventOf(cap, states[i], labels[i]))
  }

  ghost function Enqueued(t: seq<Event>): seq<Message> {
    if t == [] then []
    else Enqueued(t[..|t| - 1]) + (match t[|t| - 1] case Enqueue(m) => [m] case _ => [])
  }

  ghost function Dequeued(t: seq<Event>): seq<Message> {
    if t == [] then []
    else Dequeued(t[..|t| - 1]) + (match t[|t| - 1] case Dequeue(m) => [m] case _ => [])
  }

  lemma {:induction false} RunIsFifoUpTo(cap: int, states: seq<State>, labels: seq<Label>, n: nat)
    requires ValidCapacity(cap) && IsRun(cap, states, labels) && n <= |labels|
    requires NoOverrun(cap, states, labels)
    ensures states[n].consumed <= |states[n].regions|
    ensures var t := Trace(cap, states, labels)[..n];
            Enqueued(t) == Dequeued(t) + Pending(states[n])
  {
    hide Inv, Overrun, Next, Enabled, EventOf, Messages;
    var t := Trace(cap, states, labels);
    if n == 0 {
      assert Messages(states[0].regions[states[0].consumed..]) == [] by { EmptyMessages(); }
    } else {
      RunIsFifoUpTo(cap, states, labels, n - 1);
      RunKeepsInv(cap, states, labels, n - 1);
      assert Enabled(cap, states[n - 1], labels[n - 1]);
      StepRefinesQueue(cap, states[n - 1], labels[n - 1]);
      assert t[..n][..n - 1] == t[..n - 1];
    }
  }

  lemma EmptyMessages()
    ensures Messages([]) == []
  {
  }

  /** Over every run, with any number of producers and any interleaving, what the consumer decodes from the buffer
      is exactly the claimed messages, whole, in compare-and-set order: nothing lost, duplicated or reordered. */
  lemma RunIsFifo(cap: int, states: seq<State>, labels: seq<Label>)
    requires ValidCapacity(cap) && IsRun(cap, states, labels)
    requires NoOverrun(cap, states, labels)
    ensures states[|labels|].consumed <= |states[|labels|].regions|
    ensures Enqueued(Trace(cap, states, labels))
         == Dequeued(Trace(cap, states, labels)) + Pending(states[|labels|])
  {
    hide Pending, Enabled, Next, Overrun;
    RunIsFifoUpTo(cap, states, labels, |labels|);
    assert Trace(cap, states, labels)[..|labels|] == Trace(cap, states, labels);
  }

  // ---------------------------------------------------------------------------------------------
  // Which writes succeed
  // ---------------------------------------------------------------------------------------------

  ghost function Completed(t: seq<Event>): seq<Message> {
    if t == [] then []
    else Completed(t[..|t| - 1]) + (match t[|t| - 1] case Complete(m) => [m] case _ => [])
  }

  /** The regions whose owner has finished writing them. */
  ghost function FinishedMessages(rs: seq<Region>): multiset<Message> {
    if rs == [] then multiset{}
    else
      var last := rs[|rs| - 1];
      FinishedMessages(rs[..|rs| - 1])
      + (if last.stage == Done && last.kind.Record? then multiset{last.kind.msg} else multiset{})
  }

  lemma {:induction false} FinishedConcat(a: seq<Region>, b: seq<Region>)
    ensures FinishedMessages(a + b) == FinishedMessages(a) + FinishedMessages(b)
    decreases |b|
  {
    if b == [] {
      assert a + b == a;
    } else {
      var last := |b| - 1;
      assert (a + b)[..|a + b| - 1] == a + b[..last];
      FinishedConcat(a, b[..last]);
    }
  }

  lemma FinishedUpdate(rs: seq<Region>, r: nat, stage: Stage)
    requires r < |rs| && rs[r].stage != Done
    ensures FinishedMessages(rs[r := rs[r].(stage := stage)])
         == FinishedMessages(rs)
            + (if stage == Done && rs[r].kind.Record? then multiset{rs[r].kind.msg} else multiset{})
  {
    hide FinishedMessages;
    var x := rs[r].(stage := stage);
    var front, back := rs[..r], rs[r + 1..];
    FinishedSingle(x);
    FinishedSingle(rs[r]);
    assert rs == front + ([rs[r]] + back) && rs[r := x] == front + ([x] + back);
    FinishedConcat(front, [rs[r]] + back);
    FinishedConcat(front, [x] + back);
    FinishedConcat([rs[r]], back);
    FinishedConcat([x], back);
  }

  lemma FinishedSingle(x: Region)
    ensures FinishedMessages([x]) == if x.stage == Done && x.kind.Record? then multiset{x.kind.msg} else multiset{}
  {
    assert [x][..0] == [];
  }

  lemma FinishedNewRegions(rs: seq<Region>, p: Producer, m: Message, tail: int, padding: int)
    ensures FinishedMessages(rs + NewRegions(p, m, tail, padding)) == FinishedMessages(rs)
  {
    var added := NewRegions(p, m, tail, padding);
    FinishedConcat(rs, added);
    if padding != 0 {
      assert added[..1][..0] == [];
      assert FinishedMessages(added[..1]) == multiset{};
    } else {
      assert added[..0] == [];
    }
  }

  /** One step finishes a message exactly when its `Write` returns true. */
  lemma StepFinishes(cap: int, s: State, l: Label)
    requires Inv(cap, s) && cap > 0 && Enabled(cap, s, l)
    ensures FinishedMessages(Next(cap, s, l).regions)
         == FinishedMessages(s.regions)
            + (match EventOf(cap, s, l) case Complete(m) => multiset{m} case _ => multiset{})
  {
    hide Inv, Index, Required, FinishedMessages, ToInt32, AlignInt32, Decode, InMemory, Shaped, RecordLength;
    var s' := Next(cap, s, l);
    if l.Step? {
      var pc := s.procs[l.p];
      InvProducer(cap, s, l.p);
      if pc.SwapTail? && pc.tail == s.tail {
        FinishedNewRegions(s.regions, l.p, pc.m, s.tail, pc.padding);
      } else if pc.PutPadding? || pc.PutHeader? || pc.PutPayload? || pc.PutLength? {
        FinishedUpdate(s.regions, pc.region, s'.regions[pc.region].stage);
      }
    }
  }

  lemma {:induction false} FinishedUpTo(cap: int, states: seq<State>, labels: seq<Label>, n: nat)
    requires ValidCapacity(cap) && IsRun(cap, states, labels) && n <= |labels|
    requires NoOverrun(cap, states, labels)
    ensures multiset(Completed(Trace(cap, states, labels)[..n])) == FinishedMessages(states[n].regions)
  {
    hide Inv, Overrun, Next, Enabled, EventOf;
    var t := Trace(cap, states, labels);
    if n > 0 {
      FinishedUpTo(cap, states, labels, n - 1);
      RunKeepsInv(cap, states, labels, n - 1);
      assert Enabled(cap, states[n - 1], labels[n - 1]);
      StepFinishes(cap, states[n - 1], labels[n - 1]);
      assert t[..n][..n - 1] == t[..n - 1];
    }
  }

  /** The producer is inside `Write`, working on region i. */
  predicate WorksOn(pc: PC, i: nat) {
    match pc
    case PutPadding(_, r, _, _) => i == r || i == r + 1
    case PutHeader(_, r, _) => i == r
    case PutPayload(_, r, _, _) => i == r
    case PutLength(_, r, _) => i == r
    case _ => false
  }

  /** Every unfinished region is being worked on by its owner: no claim is ever abandoned. */
  ghost predicate Attended(s: State) {
    forall i | 0 <= i < |s.regions| && s.regions[i].stage != Done ::
      s.regions[i].owner in s.procs && WorksOn(s.procs[s.regions[i].owner], i)
  }

  lemma StepKeepsAttended(cap: int, s: State, l: Label)
    requires Inv(cap, s) && cap > 0 && Enabled(cap, s, l) && Attended(s)
    ensures Attended(Next(cap, s, l))
  {
    hide Inv, Index, Required, ToInt32, AlignInt32, Decode, InMemory, Shaped, RecordLength;
    var s' := Next(cap, s, l);
    if l.Step? {
      InvProducer(cap, s, l.p);
      forall i | 0 <= i < |s'.regions| && s'.regions[i].stage != Done
        ensures s'.regions[i].owner in s'.procs && WorksOn(s'.procs[s'.regions[i].owner], i)
      {
        if i < |s.regions| {
          assert s.regions[i].stage != Done && s.regions[i].owner == s'.regions[i].owner;
        }
      }
    }
  }

  lemma {:induction false} RunAttended(cap: int, states: seq<State>, labels: seq<Label>, n: nat)
    requires ValidCapacity(cap) && IsRun(cap, states, labels) && n <= |labels|
    requires NoOverrun(cap, states, labels)
    ensures Attended(states[n])
  {
    hide Inv, Overrun, Next, Enabled;
    if n > 0 {
      RunAttended(cap, states, labels, n - 1);
      RunKeepsInv(cap, states, labels, n - 1);
      assert Enabled(cap, states[n - 1], labels[n - 1]);
      StepKeepsAttended(cap, states[n - 1], labels[n - 1]);
    }
  }

  lemma {:induction false} AllFinished(rs: seq<Region>)
    requires forall i | 0 <= i < |rs| :: rs[i].stage == Done
    ensures FinishedMessages(rs) == multiset(Messages(rs))
  {
    if rs != [] {
      AllFinished(rs[..|rs| - 1]);
    }
  }

  lemma StepDelivers(cap: int, s: State, l: Label)
    requires cap > 0 && Enabled(cap, s, l)
    ensures Next(cap, s, l).delivered
         == s.delivered + (match EventOf(cap, s, l) case Dequeue(m) => [m] case _ => [])
  {
    hide Decode, Index, AlignInt32, Required, ToInt32;
  }

  lemma {:induction false} DeliveredIsDequeued(cap: int, states: seq<State>, labels: seq<Label>, n: nat)
    requires cap > 0 && IsRun(cap, states, labels) && n <= |labels|
    ensures states[n].delivered == Dequeued(Trace(cap, states, labels)[..n])
  {
    hide Next, Enabled, EventOf;
    var t := Trace(cap, states, labels);
    if n > 0 {
      DeliveredIsDequeued(cap, states, labels, n - 1);
      assert Enabled(cap, states[n - 1], labels[n - 1]);
      StepDelivers(cap, states[n - 1], labels[n - 1]);
      assert t[..n][..n - 1] == t[..n - 1];
    }
  }

  lemma CaughtUp(cap: int, s: State)
    requires Inv(cap, s) && s.cursor == s.tail
    ensures s.consumed == |s.regions| && s.delivered == Messages(s.regions)
  {
    hide Index, InMemory, Shaped, ProducerOk, Messages;
    if s.consumed < |s.regions| {
      RegionsOrdered(s, s.consumed, |s.regions|);
    } else {
      assert s.regions[..s.consumed] == s.regions;
    }
  }

  lemma QuiescentState(cap: int, s: State)
    requires Inv(cap, s) && Attended(s) && s.cursor == s.tail
    requires forall p | p in s.procs :: s.procs[p].Returned?
    ensures s.consumed == |s.regions| && Pending(s) == []
    ensures FinishedMessages(s.regions) == multiset(s.delivered)
  {
    hide Inv;
    CaughtUp(cap, s);
    assert s.regions[s.consumed..] == [];
    AllFinished(s.regions);
  }

  /** When no `Write` is in progress and the consumer has caught up, it has read exactly the messages of the
      successful writes, in compare-and-set order. */
  lemma QuiescentRunDeliversAllWrites(cap: int, states: seq<State>, labels: seq<Label>)
    requires ValidCapacity(cap) && IsRun(cap, states, labels)
    requires NoOverrun(cap, states, labels)
    requires states[|labels|].cursor == states[|labels|].tail
    requires forall p | p in states[|labels|].procs :: states[|labels|].procs[p].Returned?
    ensures var t := Trace(cap, states, labels);
            && Dequeued(t) == Enqueued(t) == states[|labels|].delivered
            && multiset(Completed(t)) == multiset(Dequeued(t))
  {
    hide Enabled, Next, Overrun, Inv, Enqueued, Dequeued, Completed, FinishedMessages, Pending, Attended;
    var n := |labels|;
    var t := Trace(cap, states, labels);
    assert t[..n] == t;
    RunIsFifo(cap, states, labels);
    RunKeepsInv(cap, states, labels, n);
    FinishedUpTo(cap, states, labels, n);
    RunAttended(cap, states, labels, n);
    DeliveredIsDequeued(cap, states, labels, n);
    QuiescentState(cap, states[n]);
  }
}

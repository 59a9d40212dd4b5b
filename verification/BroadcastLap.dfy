/** A run in which the transmitter laps the receiver between two reads of `receiveNext`, a payload word looks like
    padding, and a message is delivered out of sequence without a panic. */
module BroadcastLap {
  import opened Bits
  import opened CircularBuffer
  import opened Broadcast
  import opened BroadcastProof

  const CAP: int := 128
  const EMPTY: Message := Message(1, [])

  /** Its payload, read as a header, is padding of 120 bytes. */
  const DECOY: Message := Message(1, [120, 0, 0, 0, 255, 255, 255, 255])

  ghost predicate Reachable(s: State) {
    exists states, labels :: IsRun(CAP, states, labels) && states[|labels|] == s
  }

  lemma ReachStep(s: State, l: Label)
    requires Reachable(s) && Enabled(CAP, s, l)
    ensures Reachable(Next(CAP, s, l))
  {
    hide Enabled, Next;
    var states, labels :| IsRun(CAP, states, labels) && states[|labels|] == s;
    var states', labels' := states + [Next(CAP, s, l)], labels + [l];
    assert IsRun(CAP, states', labels') by {
      forall i {:trigger labels'[i]} | 0 <= i < |labels'|
        ensures Enabled(CAP, states'[i], labels'[i]) && states'[i + 1] == Next(CAP, states'[i], labels'[i])
      {
        if i < |labels| { assert labels'[i] == labels[i]; }
      }
    }
    assert states'[|labels'|] == Next(CAP, s, l);
  }

  lemma StepTo(s: State, l: Label, s': State)
    requires Reachable(s) && Enabled(CAP, s, l) && s' == Next(CAP, s, l)
    ensures Reachable(s')
  {
    hide Reachable, Enabled, Next;
    ReachStep(s, l);
  }

  // ---------------------------------------------------------------------------------------------
  // The transmitter
  // ---------------------------------------------------------------------------------------------

  /** A state with nothing being transmitted, up to where the next entry starts. */
  ghost predicate Quiescent(s: State, tail: int) {
    Reachable(s) && s.tx.Quiet? && s.b.tail == s.b.tailIntent == tail && tail >= 0 && tail % 8 == 0
  }

  /** The receiver's part of the state. */
  ghost predicate SameReceiver(s: State, s': State) {
    s'.r == s.r && s'.phase == s.phase && s'.delivered == s.delivered && s'.first == s.first && s'.next == s.next
  }

  /** The transmitter sends one empty message. */
  lemma SendEmpty(s: State, tail: int) returns (s': State)
    requires Quiescent(s, tail)
    ensures Quiescent(s', tail + 8) && SameReceiver(s, s')
    ensures s'.entries == s.entries + [Entry(tail, 0, EMPTY)]
    ensures s'.b.mem == s.b.mem[Index(tail, CAP) := Header(8, 1)]
  {
    hide Reachable, Index, Required, ChunkCount;
    EmptyFacts(tail);
    var e := Entry(tail, 0, EMPTY);
    var s1 := s.(b := s.b.(tailIntent := tail + 8), tx := Writing(e));
    StepTo(s, RaiseIntent(EMPTY), s1);
    var s2 := s1.(b := s1.b.(mem := s.b.mem[Index(tail, CAP) := Header(8, 1)]));
    StepTo(s1, Scribble(tail, Header(8, 1)), s2);
    s' := Announce(s2, e);
  }

  lemma EmptyFacts(tail: int)
    requires tail % 8 == 0
    ensures Required(EMPTY) == 8 && RecordLength(EMPTY) == 8 && ChunkCount(EMPTY.payload) == 0
    ensures ValidMessage(CAP, EMPTY) && Padding(CAP, tail, EMPTY) == 0
  {
    hide Index, Required;
    RequiredIsHeaderPlusChunks(EMPTY);
    IndexAligned(tail, CAP);
    RoomForOne(Index(tail, CAP));
  }

  lemma RoomForOne(i: int)
    requires 0 <= i < CAP && i % 8 == 0
    ensures CAP - i >= 8
  {
  }

  /** Setting the latest counter and the tail once the record is in place. */
  lemma Announce(s: State, e: Entry) returns (s': State)
    requires Reachable(s) && s.tx == Writing(e) && e.pad == 0 && RecordInPlace(CAP, s.b.mem, e)
    ensures Reachable(s') && SameReceiver(s, s') && s'.tx.Quiet? && s'.entries == s.entries + [e]
    ensures s'.b == Shared(s.b.tailIntent, s.b.tailIntent, RecordPos(e), s.b.mem)
  {
    hide Reachable, Index, RecordInPlace;
    var s1 := s.(b := s.b.(latest := RecordPos(e)), entries := s.entries + [e], tx := Announced);
    StepTo(s, SetLatest, s1);
    s' := s1.(b := s1.b.(tail := s1.b.tailIntent), tx := Quiet);
    StepTo(s1, SetTail, s');
  }

  /** Any number of empty messages. */
  lemma {:induction false} SendEmpties(s: State, tail: int, n: nat) returns (s': State)
    requires Quiescent(s, tail)
    ensures Quiescent(s', tail + 8 * n) && SameReceiver(s, s')
    ensures |s'.entries| == |s.entries| + n && s'.entries[..|s.entries|] == s.entries
    decreases n
  {
    hide Reachable, Index;
    if n == 0 {
      s' := s;
    } else {
      var mid := SendEmpties(s, tail, n - 1);
      s' := SendEmpty(mid, tail + 8 * (n - 1));
    }
  }

  /** The decoy goes to the start of the buffer, so that its payload is where the second record was. */
  lemma SendDecoy(s: State) returns (s': State)
    requires Quiescent(s, 128)
    ensures Quiescent(s', 144) && SameReceiver(s, s')
    ensures s'.entries == s.entries + [Entry(128, 0, DECOY)]
    ensures s'.b.mem == s.b.mem[0 := Header(16, 1)][8 := Data(DECOY.payload)]
  {
    hide Reachable, Required, ChunkCount;
    DecoyFacts();
    var e := Entry(128, 0, DECOY);
    var s1 := s.(b := s.b.(tailIntent := 144), tx := Writing(e));
    StepTo(s, RaiseIntent(DECOY), s1);
    var s2 := s1.(b := s1.b.(mem := s.b.mem[0 := Header(16, 1)]));
    StepTo(s1, Scribble(128, Header(16, 1)), s2);
    var s3 := s2.(b := s2.b.(mem := s2.b.mem[8 := Data(DECOY.payload)]));
    StepTo(s2, Scribble(136, Data(DECOY.payload)), s3);
    assert ChunksInPlace(s3.b.mem, 8, DECOY.payload, 1);
    s' := Announce(s3, e);
  }

  lemma DecoyFacts()
    ensures Required(DECOY) == 16 && RecordLength(DECOY) == 16 && ChunkCount(DECOY.payload) == 1
    ensures ValidMessage(CAP, DECOY) && Padding(CAP, 128, DECOY) == 0
    ensures Chunk(DECOY.payload, 0) == DECOY.payload
  {
    assert DECOY.payload[0..8] == DECOY.payload;
  }

  // ---------------------------------------------------------------------------------------------
  // The receiver
  // ---------------------------------------------------------------------------------------------

  /** The receiver has scrolled past the first message and waits at position 8. */
  lemma ScrollsPastFirst() returns (s: State)
    ensures Quiescent(s, 8) && s.phase.Idle? && s.r.nextRecord == 8 && s.r.lappedCount == 0
    ensures s.first == s.next == 1 && s.delivered == [] && s.entries == [Entry(0, 0, EMPTY)]
  {
    hide Reachable, AlignInt32;
    var s1 := LooksAtFirst();
    AlignedIsItself(8);
    var s2 := s1.(r := s1.r.(nextRecord := 8), phase := Matching(Scroll, 0));
    StepTo(s1, SeeLandingLength(8), s2);
    var s3 := s2.(phase := Scrolling);
    StepTo(s2, SeeLandingType(1), s3);
    s := s3.(phase := Idle, first := 1);
    StepTo(s3, ReadTail, s);
  }

  lemma LooksAtFirst() returns (s: State)
    ensures Quiescent(s, 8) && s.phase == Measuring(Scroll, 0) && s.r == Cursor(0, 0, 0, 0)
    ensures s.first == 0 && s.next == 1 && s.delivered == [] && s.entries == [Entry(0, 0, EMPTY)]
    ensures s.b.mem == map[0 := Header(8, 1)]
  {
    hide Reachable;
    var s0 := State(Shared(0, 0, 0, map[]), Quiet, [], Cursor(0, 0, 0, 0), Scrolling, [], 0, 0);
    InitIsReachable(s0);
    var s1 := SendEmpty(s0, 0);
    var s2 := s1.(phase := Validating(Scroll));
    StepTo(s1, ReadTail, s2);
    s := s2.(phase := Measuring(Scroll, 0), next := 1);
    StepTo(s2, CheckValid, s);
  }

  lemma InitIsReachable(s: State)
    requires Init(s)
    ensures Reachable(s)
  {
    var states, labels: seq<Label> := [s], [];
    assert IsRun(CAP, states, labels) && states[|labels|] == s;
  }

  /** It finds the second message, validates its position and is held up before reading the header. */
  lemma IsHeldUp() returns (s: State)
    ensures Quiescent(s, 16) && s.phase == Measuring(Receive(0), 8) && s.r.lappedCount == 0
    ensures s.first == 1 && s.next == 2 && s.delivered == [] && |s.entries| == 2 && s.entries[1].msg == EMPTY
  {
    hide Reachable, Index;
    var s0 := ScrollsPastFirst();
    var s1 := SendEmpty(s0, 8);
    var s2 := s1.(phase := Validating(Receive(0)));
    StepTo(s1, ReadTail, s2);
    s := s2.(r := s2.r.(cursor := 8), phase := Measuring(Receive(0), 8), next := 2);
    StepTo(s2, CheckValid, s);
  }

  /** The transmitter goes round the buffer and puts the decoy over the header. */
  lemma IsLapped() returns (s: State)
    ensures Quiescent(s, 144) && s.phase == Measuring(Receive(0), 8) && s.r.lappedCount == 0
    ensures s.first == 1 && s.delivered == [] && |s.entries| == 17 && s.entries[1].msg == EMPTY
    ensures 0 in s.b.mem && s.b.mem[0] == Header(16, 1) && 8 in s.b.mem && s.b.mem[8] == Data(DECOY.payload)
  {
    hide Reachable;
    var s0 := IsHeldUp();
    var s1 := SendEmpties(s0, 16, 14);
    assert s1.entries[1] == s0.entries[1];
    s := SendDecoy(s1);
  }

  /** The decoy's payload reads as padding, and the receiver goes on to the record at the start of the buffer. */
  lemma TakesDecoyForPadding() returns (s: State)
    ensures Quiescent(s, 144) && s.phase.ReadingLength? && s.r == Cursor(0, 128, 144, 0)
    ensures s.first == 1 && s.delivered == [] && |s.entries| == 17 && s.entries[1].msg == EMPTY
    ensures 0 in s.b.mem && s.b.mem[0] == Header(16, 1) && 8 in s.b.mem && s.b.mem[8] == Data(DECOY.payload)
  {
    hide Reachable;
    var s0 := IsLapped();
    assert Int32Of(DECOY.payload, 0) == 120 && Int32Of(DECOY.payload, 4) == -1;
    var s1 := s0.(r := s0.r.(nextRecord := 128), phase := Matching(Receive(0), 8));
    StepTo(s0, SeeLandingLength(120), s1);
    var s2 := s1.(r := s1.r.(cursor := 128), phase := MeasuringFirst(Receive(0)));
    StepTo(s1, SeeLandingType(-1), s2);
    s := s2.(r := Cursor(0, 128, 144, 0), phase := ReadingLength);
    StepTo(s2, SeeFirstLength(16), s);
  }

  lemma {:induction false} CopiesUpTo(s: State, n: nat)
    requires Reachable(s) && s.phase == Copying(8, 1, []) && s.r.recordOffset == 0
    requires 8 in s.b.mem && s.b.mem[8] == Data(DECOY.payload) && n <= 8
    ensures Reachable(s.(phase := Copying(8, 1, DECOY.payload[..n])))
  {
    hide Reachable;
    if n > 0 {
      CopiesUpTo(s, n - 1);
      assert DECOY.payload[..n] == DECOY.payload[..n - 1] + [DECOY.payload[n - 1]];
      StepTo(s.(phase := Copying(8, 1, DECOY.payload[..n - 1])), CopyByte(DECOY.payload[n - 1]),
             s.(phase := Copying(8, 1, DECOY.payload[..n])));
    } else {
      assert DECOY.payload[..0] == [];
      assert s.(phase := Copying(8, 1, DECOY.payload[..0])) == s;
    }
  }

  /** A reachable state: the receiver started at the second of 17 messages, has not panicked, and the one message it has
      delivered is the last. */
  lemma SkipsWithoutPanic() returns (s: State)
    ensures Reachable(s) && s.phase.Idle? && s.r.lappedCount == 0 && s.first == 1 && |s.entries| == 17
    ensures s.delivered == [DECOY] && s.delivered != Messages(s.entries[1..2])
  {
    hide Reachable;
    var s0 := TakesDecoyForPadding();
    var s1 := s0.(phase := ReadingType(8));
    StepTo(s0, SeeLength(16), s1);
    var s2 := s1.(phase := Copying(8, 1, []));
    StepTo(s1, SeeType(1), s2);
    CopiesUpTo(s2, 8);
    var s3 := s2.(phase := Copying(8, 1, DECOY.payload));
    assert DECOY.payload[..8] == DECOY.payload;
    s := s3.(phase := Idle, delivered := [DECOY]);
    StepTo(s3, Finish, s);
    assert Messages(s.entries[1..2])[0] == EMPTY;
  }
}

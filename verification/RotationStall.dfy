/** A run in which stalled publishers trip a term that is not active yet, and the partitions get out of step. */
module RotationStall {
  import opened Bits
  import opened Rotation
  import opened RotationProof
  import Positions

  const C: Config := Config(0, 0x1_0000, 0x2000)
  const LEN: int := 0x2000
  const WORKER: Publisher := 0
  const STALLED: nat := 9
  const PARKED: PC := Append(0, 0, 0)

  ghost predicate Reachable(s: State) {
    exists states, labels :: IsRun(C, states, labels) && states[|labels|] == s
  }

  lemma ReachStep(s: State, l: Label)
    requires Reachable(s) && Enabled(C, s, l)
    ensures Reachable(Next(C, s, l))
  {
    hide Enabled, Next, Init;
    var states, labels :| IsRun(C, states, labels) && states[|labels|] == s;
    var states', labels' := states + [Next(C, s, l)], labels + [l];
    assert IsRun(C, states', labels') by {
      forall i {:trigger labels'[i]} | 0 <= i < |labels'|
        ensures Enabled(C, states'[i], labels'[i]) && states'[i + 1] == Next(C, states'[i], labels'[i])
      {
        if i < |labels| { assert labels'[i] == labels[i]; }
      }
    }
    assert states'[|labels'|] == Next(C, s, l);
  }

  /** A reachable state that also satisfies the invariant, and one more step from it. */
  ghost predicate Good(s: State) {
    Reachable(s) && Inv(C, s)
  }

  lemma GoodStep(s: State, l: Label) returns (s': State)
    requires Good(s) && Enabled(C, s, l) && !EarlySwap(s, l)
    ensures s' == Next(C, s, l) && Good(s')
  {
    hide Reachable, Inv, Enabled, Next, EarlySwap;
    ReachStep(s, l);
    StepKeepsInv(C, s, l);
    s' := Next(C, s, l);
  }

  // ---------------------------------------------------------------------------------------------
  // Nine publishers pass the term check in the first term and stall before their append
  // ---------------------------------------------------------------------------------------------

  lemma {:induction false} Park(n: nat) returns (s: State)
    requires n <= STALLED
    ensures Good(s) && s.activeCount == 0 && s.terms == [0, -2, -1] && TermOffset(s.tails[0]) == 0
    ensures WORKER !in s.procs && (forall q | 1 <= q <= n :: q in s.procs && s.procs[q] == PARKED)
    ensures forall q | q in s.procs :: 1 <= q <= n
  {
    hide Reachable, ToInt32, TermID;
    if n == 0 {
      s := NoneParked();
    } else {
      var s0 := Park(n - 1);
      s := ParkOne(s0, n);
    }
  }

  /** One more publisher calls `Offer`, passes the term check and stalls. */
  lemma ParkOne(s0: State, p: Publisher) returns (s: State)
    requires Good(s0) && s0.activeCount == 0 && s0.terms == [0, -2, -1] && TermOffset(s0.tails[0]) == 0
    requires p !in s0.procs
    ensures Good(s) && s == Goto(s0, p, PARKED)
  {
    hide Reachable, ToInt32, TermID, IdOf, Inv, PublisherOk;
    TailIds(s0, 0);
    var s1 := GoodStep(s0, Call(p));
    var s2 := GoodStep(s1, Step(p));
    CountFromId(C, 0);
    assert TermID(s2.tails[0]) == IdOf(C, 0);
    s := GoodStep(s2, Step(p));
  }

  lemma NoneParked() returns (s: State)
    ensures Good(s) && s.activeCount == 0 && s.terms == [0, -2, -1] && TermOffset(s.tails[0]) == 0 && s.procs == map[]
  {
    hide Reachable, ToInt32, TermID;
    s := State([IdOf(C, 0) * TWO_32, IdOf(C, -2) * TWO_32, IdOf(C, -1) * TWO_32], 0, map[], [0, -2, -1]);
    var states, labels: seq<Label> := [s], [];
    assert IsRun(C, states, labels) && states[|labels|] == s;
    assert Reachable(s) by { ReachInit(s, states, labels); }
    InitEstablishesInv(C, s);
  }

  lemma ReachInit(s: State, states: seq<State>, labels: seq<Label>)
    requires IsRun(C, states, labels) && states[|labels|] == s
    ensures Reachable(s)
  {
  }

  // ---------------------------------------------------------------------------------------------
  // A worker fills and rotates terms meanwhile
  // ---------------------------------------------------------------------------------------------

  /** Term t is active with m appends in it, its next tail is not reset yet, and nine publishers are parked. */
  ghost predicate Filling(s: State, t: nat, m: nat) {
    && Good(s) && s.activeCount == t <= 2 && WellFormed(s)
    && TermOffset(s.tails[Partition(t)]) == LEN * m && s.terms[Partition(t + 1)] == t - 2
    && (WORKER in s.procs ==> s.procs[WORKER].Returned?)
    && forall q | 1 <= q <= STALLED :: q in s.procs && s.procs[q] == PARKED
  }

  /** The worker calls `Offer` and passes the term check. */
  lemma WorkerReady(s: State, t: nat, m: nat) returns (s': State)
    requires Filling(s, t, m)
    ensures Good(s') && s' == Goto(s, WORKER, Append(t, t * C.termLength + LEN * m, LEN * m))
  {
    hide Reachable, ToInt32, TermID, TermOffset, IdOf, PublisherOk;
    var s1 := GoodStep(s, Call(WORKER));
    var s2 := GoodStep(s1, Step(WORKER));
    CountFromId(C, t);
    assert TermID(s2.tails[Partition(t)]) == IdOf(C, t);
    s' := GoodStep(s2, Step(WORKER));
  }

  lemma OfferOnce(s: State, t: nat, m: nat) returns (s': State)
    requires Filling(s, t, m) && m < 8
    ensures Filling(s', t, m + 1)
  {
    hide Reachable, ToInt32, TermID, TermOffset, IdOf, PublisherOk, Inv;
    var s1 := WorkerReady(s, t, m);
    var i := Partition(t);
    TermIDAfterAppend(s.tails[i], LEN);
    Partitions(t);
    s' := GoodStep(s1, DoAppend(WORKER, LEN));
  }

  lemma {:induction false} Fill(s: State, t: nat, m: nat) returns (s': State)
    requires Filling(s, t, m) && m <= 8
    ensures Filling(s', t, 8)
    decreases 8 - m
  {
    hide Filling;
    if m == 8 {
      s' := s;
    } else {
      var s1 := OfferOnce(s, t, m);
      s' := Fill(s1, t, m + 1);
    }
  }

  /** The ninth offer trips; the worker resets the next tail and is about to move the active count. */
  lemma ResetNext(s: State, t: nat) returns (s': State)
    requires Filling(s, t, 8)
    ensures Good(s') && s'.activeCount == t && WellFormed(s')
    ensures WORKER in s'.procs && s'.procs[WORKER] == RotateCount(t, IdOf(C, t), t)
    ensures s'.terms == s.terms[Partition(t + 1) := t + 1] && TermOffset(s'.tails[Partition(t + 1)]) == 0
    ensures forall q | 1 <= q <= STALLED :: q in s'.procs && s'.procs[q] == PARKED
  {
    hide Reachable, ToInt32, TermID, TermOffset, IdOf, PublisherOk, Inv;
    var s1 := WorkerReady(s, t, 8);
    var i, j := Partition(t), Partition(t + 1);
    TailIds(s, i);
    TailIds(s, j);
    TermIDAfterAppend(s.tails[i], LEN);
    Partitions(t);
    var s2 := GoodStep(s1, DoAppend(WORKER, LEN));
    assert s2.procs[WORKER] == RotateRead(t, IdOf(C, t), t);
    NextId(C, t);
    var s3 := GoodStep(s2, Step(WORKER));
    assert s3.procs[WORKER] == RotateSwap(t, IdOf(C, t), t, s.tails[j]);
    IdRange(C, t + 1);
    TermIDOfReset(IdOf(C, t + 1));
    s' := GoodStep(s3, Step(WORKER));
  }

  lemma TailIds(s: State, i: nat)
    requires Inv(C, s) && i < 3
    ensures WellFormed(s) && TermID(s.tails[i]) == IdOf(C, s.terms[i])
    ensures s.terms[Partition(s.activeCount)] == s.activeCount
    ensures s.terms[Partition(s.activeCount - 1)] == s.activeCount - 1
  {
    hide TermID, IdOf, PublisherOk;
  }

  lemma Advance(s: State, t: nat) returns (s': State)
    requires Filling(s, t, 0) && t < 2
    ensures Filling(s', t + 1, 0)
  {
    hide Reachable, ToInt32, TermID, TermOffset, IdOf, PublisherOk, Inv;
    var s1 := Fill(s, t, 0);
    TailIds(s1, 0);
    Partitions(t);
    Partitions(t + 1);
    var s2 := ResetNext(s1, t);
    s' := GoodStep(s2, Step(WORKER));
  }

  /** The second term is active, the third tail is reset, and the active count is about to follow. */
  lemma AboutToActivate() returns (s: State)
    ensures Good(s) && s.activeCount == 2 && WellFormed(s) && s.terms == [3, 1, 2] && TermOffset(s.tails[0]) == 0
    ensures forall q | 1 <= q <= STALLED :: q in s.procs && s.procs[q] == PARKED
  {
    hide Reachable, ToInt32, TermID, TermOffset, IdOf, PublisherOk, Inv;
    var s0 := Park(STALLED);
    TailIds(s0, 0);
    var s1 := Advance(s0, 0);
    var s2 := Advance(s1, 1);
    var s3 := Fill(s2, 2, 0);
    TailIds(s3, 0);
    s := ResetNext(s3, 2);
    TailIds(s, 0);
  }

  // ---------------------------------------------------------------------------------------------
  // The stalled publishers wake up
  // ---------------------------------------------------------------------------------------------

  lemma {:induction false} WakeUp(n: nat) returns (s: State)
    requires n <= 8
    ensures Good(s) && s.activeCount == 2 && WellFormed(s) && s.terms == [3, 1, 2] && TermOffset(s.tails[0]) == LEN * n
    ensures forall q | n < q <= STALLED :: q in s.procs && s.procs[q] == PARKED
  {
    hide Reachable, ToInt32, TermID, TermOffset, IdOf, PublisherOk, Inv;
    if n == 0 {
      s := AboutToActivate();
    } else {
      var s0 := WakeUp(n - 1);
      TermIDAfterAppend(s0.tails[0], LEN);
      s := GoodStep(s0, DoAppend(n, LEN));
    }
  }

  /** A stalled publisher's append fits into term 3, and the position it returns is three terms too low. */
  lemma WrongPositionIsReachable() returns (s: State)
    ensures Good(s) && Enabled(C, s, DoAppend(1, LEN)) && Next(C, s, DoAppend(1, LEN)).procs[1].Returned?
    ensures s.terms[0] == 3 && s.procs[1] == PARKED
    ensures var end := TermOffset(s.tails[0]) + LEN;
            && end <= C.termLength
            && Positions.OfferedPosition(s.procs[1], end) + 3 * C.termLength == s.terms[0] * C.termLength + end
  {
    hide Reachable, ToInt32, TermID, TermOffset, IdOf, PublisherOk, Inv;
    s := WakeUp(0);
  }

  /** Without the no-early-swap condition the claim about the three partitions is false: here term 2 is active,
      yet no partition holds term 1 any more and one is already in term 4. */
  lemma EarlyTripIsReachable() returns (s: State)
    ensures Reachable(s) && s.activeCount == 2 && !TermsOk(s)
    ensures WellFormed(s) && TermID(s.tails[1]) == IdOf(C, 4)
  {
    hide Reachable, ToInt32, TermID, TermOffset, IdOf, PublisherOk, Inv;
    var s0 := WakeUp(8);
    var p: Publisher := 9;
    var l := DoAppend(p, LEN);
    ReachStep(s0, l);
    var s1 := Next(C, s0, l);
    EarlyRotationBreaksTerms(C, s0, p, LEN);
    ReachStep(s1, Step(p));
    var s2 := Next(C, s1, Step(p));
    if s2.procs[p].RotateSwap? {
      ReachStep(s2, Step(p));
      s := Next(C, s2, Step(p));
    } else {
      s := s2;
    }
    assert s == ResetNextTail(C, s1, p);
  }
}

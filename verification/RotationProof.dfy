/** What every run of rotating publishers keeps, and the one situation in which the code does not keep it. */
module RotationProof {
  import opened Bits
  import opened Rotation

  // ---------------------------------------------------------------------------------------------
  // Term ids
  // ---------------------------------------------------------------------------------------------

  /** Two terms less than 2^32 apart have different ids, wherever the ids wrap. */
  lemma IdsDistinct(c: Config, a: int, b: int)
    requires -TWO_32 < a - b < TWO_32 && IdOf(c, a) == IdOf(c, b)
    ensures a == b
  {
  }

  lemma NextId(c: Config, k: int)
    ensures ToInt32(IdOf(c, k) + 1) == IdOf(c, k + 1)
    ensures ToInt32(ToInt32(IdOf(c, k) + 1) - PARTITION_COUNT) == IdOf(c, k - 2)
  {
    ToInt32Nested(1, c.initialTermId + k);
    ToInt32Nested(-3, c.initialTermId + k + 1);
  }

  /** The check in `Offer` recovers the term number, including across the wrap. */
  lemma CountFromId(c: Config, n: int)
    requires -TWO_31 <= n < TWO_31
    ensures ToInt32(IdOf(c, n) - c.initialTermId) == n
  {
    ToInt32Nested(-c.initialTermId, c.initialTermId + n);
  }

  lemma TermIDOfReset(id: int)
    requires -TWO_31 <= id < TWO_31
    ensures TermID(id * TWO_32) == id && TermOffset(id * TWO_32) == 0
  {
  }

  lemma TermIDAfterAppend(raw: int, n: int)
    requires 0 <= n && TermOffset(raw) + n < TWO_32
    ensures TermID(raw + n) == TermID(raw) && TermOffset(raw + n) == TermOffset(raw) + n
  {
    var q := raw / TWO_32;
    assert raw + n == q * TWO_32 + (TermOffset(raw) + n);
    assert (raw + n) / TWO_32 == q;
  }

  lemma Partitions(n: int)
    ensures Partition(n) != Partition(n + 1) && Partition(n) != Partition(n - 1) && Partition(n + 1) != Partition(n - 1)
    ensures Partition(n + 2) == Partition(n - 1) && Partition(n - 2) == Partition(n + 1)
    ensures {Partition(n), Partition(n + 1), Partition(n - 1)} == {0, 1, 2}
  {
  }

  // ---------------------------------------------------------------------------------------------
  // Steps
  // ---------------------------------------------------------------------------------------------

  lemma PublisherStable(c: Config, s: State, s': State, pc: PC)
    requires WellFormed(s) && WellFormed(s') && PublisherOk(c, s, pc)
    requires s.activeCount <= s'.activeCount && forall i | 0 <= i < 3 :: s.terms[i] <= s'.terms[i]
    requires s.activeCount == s'.activeCount ==>
               forall i | 0 <= i < 3 :: s.terms[i] == s.activeCount + 1 ==> s'.terms[i] == s.terms[i]
    requires s'.activeCount != s.activeCount ==>
               s'.activeCount == s.activeCount + 1 && TermsOk(s') && s'.terms == s.terms
    ensures PublisherOk(c, s', pc)
  {
    hide TermID, IdOf, Partition;
  }

  lemma LocalStepKeepsInv(c: Config, s: State, p: Publisher, pc: PC)
    requires Inv(c, s) && PublisherOk(c, s, pc)
    ensures Inv(c, Goto(s, p, pc))
  {
    hide TermID, IdOf, Partition;
    var s' := Goto(s, p, pc);
    forall q | q in s'.procs
      ensures PublisherOk(c, s', s'.procs[q])
    {
      PublisherStable(c, s, s', s'.procs[q]);
    }
  }

  lemma ReadTailKeepsInv(c: Config, s: State, p: Publisher)
    requires Inv(c, s) && Enabled(c, s, Step(p)) && s.procs[p].ReadTail?
    ensures Inv(c, Next(c, s, Step(p)))
  {
    hide ToInt32, TermOffset;
    var count := s.procs[p].count;
    var n, i := s.activeCount, Partition(s.procs[p].count);
    assert PublisherOk(c, s, s.procs[p]);
    assert TermID(s.tails[i]) == IdOf(c, s.terms[i]);
    Partitions(n);
    assert n - 2 <= s.terms[i] <= n + 1;
    if s.terms[i] < TWO_31 {
      CountFromId(c, s.terms[i]);
    }
    LocalStepKeepsInv(c, s, p, Next(c, s, Step(p)).procs[p]);
  }

  /** Appending moves only the low half of one tail. */
  lemma AppendKeepsInv(c: Config, s: State, p: Publisher, n: int)
    requires Inv(c, s) && Enabled(c, s, DoAppend(p, n))
    ensures Inv(c, Next(c, s, DoAppend(p, n)))
  {
    hide ToInt32, TermOffset, TermID, IdOf;
    var s' := Next(c, s, DoAppend(p, n));
    var count := s.procs[p].count;
    var i := Partition(count);
    assert PublisherOk(c, s, s.procs[p]);
    TermIDAfterAppend(s.tails[i], n);
    Partitions(s.activeCount);
    assert Partition(s.terms[i]) == i;
    forall q | q in s'.procs
      ensures PublisherOk(c, s', s'.procs[q])
    {
      if q != p { PublisherStable(c, s, s', s'.procs[q]); }
    }
  }

  lemma RotateReadKeepsInv(c: Config, s: State, p: Publisher)
    requires Inv(c, s) && Enabled(c, s, Step(p)) && s.procs[p].RotateRead?
    ensures Inv(c, Next(c, s, Step(p)))
  {
    hide ToInt32, TermOffset, TermID, IdOf;
    var RotateRead(count, termId, k) := s.procs[p];
    assert PublisherOk(c, s, s.procs[p]);
    NextId(c, k);
    Partitions(s.activeCount);
    assert TermID(s.tails[Partition(count + 1)]) == IdOf(c, s.terms[Partition(count + 1)]);
    LocalStepKeepsInv(c, s, p, Next(c, s, Step(p)).procs[p]);
  }

  /** A swap that is not early can only succeed for the active term, and only once. */
  lemma SwapOnlyForActive(c: Config, s: State, p: Publisher)
    requires Inv(c, s) && p in s.procs && s.procs[p].RotateSwap? && s.procs[p].k <= s.activeCount
    requires s.tails[Partition(s.procs[p].count + 1)] == s.procs[p].rawTail
    ensures s.procs[p].k == s.activeCount
    ensures s.terms[Partition(s.procs[p].count + 1)] == s.activeCount - 2
    ensures Partition(s.procs[p].count + 1) == Partition(s.activeCount + 1)
  {
    hide ToInt32, TermOffset, TermID, IdOf;
    var RotateSwap(count, termId, k, raw) := s.procs[p];
    var i, n := Partition(count + 1), s.activeCount;
    assert PublisherOk(c, s, s.procs[p]);
    assert TermID(s.tails[i]) == IdOf(c, s.terms[i]);
    Partitions(n);
    IdsDistinct(c, s.terms[i], k - 2);
  }

  lemma RotateSwapKeepsInv(c: Config, s: State, p: Publisher)
    requires Inv(c, s) && Enabled(c, s, Step(p)) && s.procs[p].RotateSwap? && !EarlySwap(s, Step(p))
    ensures Inv(c, Next(c, s, Step(p)))
  {
    hide ToInt32, TermOffset, TermID, IdOf;
    var RotateSwap(count, termId, k, raw) := s.procs[p];
    var i := Partition(count + 1);
    var s' := Next(c, s, Step(p));
    assert PublisherOk(c, s, s.procs[p]);
    if s.tails[i] != raw {
      LocalStepKeepsInv(c, s, p, s'.procs[p]);
    } else {
      SwapOnlyForActive(c, s, p);
      NextId(c, k);
      TermIDOfReset(IdOf(c, k + 1)) by { IdRange(c, k + 1); }
      Partitions(s.activeCount);
      forall q | q in s'.procs
        ensures PublisherOk(c, s', s'.procs[q])
      {
        if q != p { PublisherStable(c, s, s', s'.procs[q]); }
      }
    }
  }

  lemma IdRange(c: Config, n: int)
    ensures -TWO_31 <= IdOf(c, n) < TWO_31
  {
  }

  lemma RotateCountKeepsInv(c: Config, s: State, p: Publisher)
    requires Inv(c, s) && Enabled(c, s, Step(p)) && s.procs[p].RotateCount?
    ensures Inv(c, Next(c, s, Step(p)))
  {
    hide ToInt32, TermOffset, TermID, IdOf;
    var s' := Next(c, s, Step(p));
    assert PublisherOk(c, s, s.procs[p]);
    Partitions(s.activeCount);
    Partitions(s.activeCount + 1);
    forall q | q in s'.procs
      ensures PublisherOk(c, s', s'.procs[q])
    {
      if q != p { PublisherStable(c, s, s', s'.procs[q]); }
    }
  }

  /** Every step of every publisher keeps the invariant, unless a rotator wins a swap for a term not active yet. */
  lemma StepKeepsInv(c: Config, s: State, l: Label)
    requires Inv(c, s) && Enabled(c, s, l) && !EarlySwap(s, l)
    ensures Inv(c, Next(c, s, l))
  {
    hide ToInt32, TermOffset, TermID, IdOf, Partition;
    match l
    case Call(p) => LocalStepKeepsInv(c, s, p, ReadCount);
    case GiveUp(p) => LocalStepKeepsInv(c, s, p, Returned);
    case DoAppend(p, n) => AppendKeepsInv(c, s, p, n);
    case Step(p) =>
      match s.procs[p]
      case ReadCount => LocalStepKeepsInv(c, s, p, ReadTail(s.activeCount));
      case ReadTail(_) => ReadTailKeepsInv(c, s, p);
      case RotateRead(_, _, _) => RotateReadKeepsInv(c, s, p);
      case RotateSwap(_, _, _, _) => RotateSwapKeepsInv(c, s, p);
      case RotateCount(_, _, _) => RotateCountKeepsInv(c, s, p);
      case _ =>
  }

  /** An early swap puts the partition of the previous term two terms ahead of the active one. */
  lemma EarlySwapBreaksTerms(c: Config, s: State, l: Label)
    requires Inv(c, s) && Enabled(c, s, l) && EarlySwap(s, l)
    ensures !TermsOk(Next(c, s, l))
    ensures WellFormed(Next(c, s, l)) && Next(c, s, l).terms[Partition(s.activeCount - 1)] == s.activeCount + 2
  {
    hide ToInt32, TermOffset, TermID, IdOf;
    assert PublisherOk(c, s, s.procs[l.p]);
    Partitions(s.activeCount);
  }

  /** A step keeps the invariant if and only if it is no early swap, and an early swap shows in the partitions. */
  lemma StepKeepsInvIff(c: Config, s: State, l: Label)
    requires Inv(c, s) && Enabled(c, s, l)
    ensures Inv(c, Next(c, s, l)) <==> !EarlySwap(s, l)
    ensures TermsOk(Next(c, s, l)) <==> !EarlySwap(s, l)
  {
    hide EarlySwap, Next, TermID, IdOf, PublisherOk, Partition;
    if EarlySwap(s, l) {
      EarlySwapBreaksTerms(c, s, l);
    } else {
      StepKeepsInv(c, s, l);
    }
  }

  // ---------------------------------------------------------------------------------------------
  // Whole runs
  // ---------------------------------------------------------------------------------------------

  ghost predicate IsRun(c: Config, states: seq<State>, labels: seq<Label>) {
    && |states| == |labels| + 1 && Init(c, states[0])
    && forall i {:trigger labels[i]} | 0 <= i < |labels| ::
         Enabled(c, states[i], labels[i]) && states[i + 1] == Next(c, states[i], labels[i])
  }

  ghost predicate NoEarlySwap(c: Config, states: seq<State>, labels: seq<Label>)
    requires IsRun(c, states, labels)
  {
    forall i {:trigger labels[i]} | 0 <= i < |labels| ::
      Enabled(c, states[i], labels[i]) && !EarlySwap(states[i], labels[i])
  }

  lemma InitEstablishesInv(c: Config, s: State)
    requires ValidConfig(c) && Init(c, s)
    ensures Inv(c, s)
  {
    hide ToInt32;
    IdRange(c, 0);
    IdRange(c, -1);
    IdRange(c, -2);
    TermIDOfReset(IdOf(c, 0));
    TermIDOfReset(IdOf(c, -1));
    TermIDOfReset(IdOf(c, -2));
  }

  /** In every state of every run the tails hold the ids of terms n, n-1 and n-2 or n+1, for the active term n. */
  lemma {:induction false} RunKeepsInv(c: Config, states: seq<State>, labels: seq<Label>, i: nat)
    requires ValidConfig(c) && IsRun(c, states, labels) && NoEarlySwap(c, states, labels) && i < |states|
    ensures Inv(c, states[i])
  {
    hide Inv, Next, Enabled, Init, EarlySwap;
    if i == 0 {
      InitEstablishesInv(c, states[0]);
    } else {
      RunKeepsInv(c, states, labels, i - 1);
      assert Enabled(c, states[i - 1], labels[i - 1]);
      StepKeepsInv(c, states[i - 1], labels[i - 1]);
    }
  }

  /** As long as the partitions are right, so is everything else. */
  lemma {:induction false} TermsOkKeepsInv(c: Config, states: seq<State>, labels: seq<Label>, i: nat)
    requires ValidConfig(c) && IsRun(c, states, labels) && i < |states|
    requires forall j | 0 <= j <= i :: TermsOk(states[j])
    ensures Inv(c, states[i])
  {
    hide Inv, Next, Enabled, Init, EarlySwap, TermsOk;
    if i == 0 {
      InitEstablishesInv(c, states[0]);
    } else {
      TermsOkKeepsInv(c, states, labels, i - 1);
      assert Enabled(c, states[i - 1], labels[i - 1]) && TermsOk(states[i]);
      StepKeepsInvIff(c, states[i - 1], labels[i - 1]);
    }
  }

  /** The three partitions stay right throughout a run if and only if no rotator in it wins a swap for a term not active
      yet, and that is exactly when every state satisfies the whole invariant. */
  lemma RunKeepsInvIff(c: Config, states: seq<State>, labels: seq<Label>)
    requires ValidConfig(c) && IsRun(c, states, labels)
    ensures (forall i | 0 <= i < |states| :: TermsOk(states[i])) <==> NoEarlySwap(c, states, labels)
    ensures (forall i | 0 <= i < |states| :: Inv(c, states[i])) <==> NoEarlySwap(c, states, labels)
  {
    hide Inv, Next, Enabled, Init, EarlySwap, TermsOk;
    if NoEarlySwap(c, states, labels) {
      forall i | 0 <= i < |states|
        ensures Inv(c, states[i]) && TermsOk(states[i])
      {
        RunKeepsInv(c, states, labels, i);
        InvTerms(c, states[i]);
      }
    } else if forall i | 0 <= i < |states| :: TermsOk(states[i]) {
      NoEarlySwapIfTermsOk(c, states, labels);
    } else {
      var i :| 0 <= i < |states| && !TermsOk(states[i]);
      if Inv(c, states[i]) {
        InvTerms(c, states[i]);
      }
    }
  }

  lemma InvTerms(c: Config, s: State)
    requires Inv(c, s)
    ensures TermsOk(s)
  {
  }

  lemma NoEarlySwapIfTermsOk(c: Config, states: seq<State>, labels: seq<Label>)
    requires ValidConfig(c) && IsRun(c, states, labels) && forall i | 0 <= i < |states| :: TermsOk(states[i])
    ensures NoEarlySwap(c, states, labels)
  {
    hide Inv, Next, Enabled, Init, EarlySwap, TermsOk;
    forall j {:trigger labels[j]} | 0 <= j < |labels|
      ensures Enabled(c, states[j], labels[j]) && !EarlySwap(states[j], labels[j])
    {
      TermsOkKeepsInv(c, states, labels, j);
      assert Enabled(c, states[j], labels[j]) && TermsOk(states[j + 1]);
      StepKeepsInvIff(c, states[j], labels[j]);
    }
  }

  // ---------------------------------------------------------------------------------------------
  // A condition on the appends
  // ---------------------------------------------------------------------------------------------

  ghost predicate NoEarlyTrip(c: Config, states: seq<State>, labels: seq<Label>)
    requires IsRun(c, states, labels)
  {
    forall i {:trigger labels[i]} | 0 <= i < |labels| ::
      Enabled(c, states[i], labels[i]) && !TripsEarly(c, states[i], labels[i])
  }

  /** Every rotator works for a term that is active or was. */
  predicate AllTimely(s: State) {
    forall p | p in s.procs && (s.procs[p].RotateRead? || s.procs[p].RotateSwap? || s.procs[p].RotateCount?) ::
      s.procs[p].k <= s.activeCount
  }

  lemma StepKeepsTimely(c: Config, s: State, l: Label)
    requires Enabled(c, s, l) && !TripsEarly(c, s, l) && AllTimely(s)
    ensures AllTimely(Next(c, s, l))
  {
    hide ToInt32, TermOffset, TermID, IdOf, Partition;
  }

  lemma {:induction false} RunStaysTimely(c: Config, states: seq<State>, labels: seq<Label>, i: nat)
    requires IsRun(c, states, labels) && NoEarlyTrip(c, states, labels) && i < |states|
    ensures AllTimely(states[i])
  {
    hide Next, Enabled, TripsEarly;
    if i > 0 {
      RunStaysTimely(c, states, labels, i - 1);
      assert Enabled(c, states[i - 1], labels[i - 1]);
      StepKeepsTimely(c, states[i - 1], labels[i - 1]);
    }
  }

  /** A run in which no append trips in a term not active yet has no early swap. */
  lemma NoEarlyTripNoEarlySwap(c: Config, states: seq<State>, labels: seq<Label>)
    requires IsRun(c, states, labels) && NoEarlyTrip(c, states, labels)
    ensures NoEarlySwap(c, states, labels)
  {
    hide Next, TripsEarly;
    forall j {:trigger labels[j]} | 0 <= j < |labels|
      ensures Enabled(c, states[j], labels[j]) && !EarlySwap(states[j], labels[j])
    {
      RunStaysTimely(c, states, labels, j);
      assert Enabled(c, states[j], labels[j]);
    }
  }

  /** The active count moves by one at a time, and only after the next tail carries the next term's id. */
  lemma ActiveMovesAfterReset(c: Config, states: seq<State>, labels: seq<Label>, i: nat)
    requires ValidConfig(c) && IsRun(c, states, labels) && NoEarlySwap(c, states, labels) && i < |labels|
    ensures WellFormed(states[i])
    ensures var n := states[i].activeCount;
            || states[i + 1].activeCount == n
            || (states[i + 1].activeCount == n + 1
                && TermID(states[i].tails[Partition(n + 1)]) == IdOf(c, n + 1))
  {
    hide ToInt32, TermOffset, TermID, IdOf;
    RunKeepsInv(c, states, labels, i);
    var s, l := states[i], labels[i];
    assert Enabled(c, s, l) && states[i + 1] == Next(c, s, l);
    if l.Step? && s.procs[l.p].RotateCount? && s.procs[l.p].count == s.activeCount {
      assert PublisherOk(c, s, s.procs[l.p]);
      assert TermID(s.tails[Partition(s.activeCount + 1)]) == IdOf(c, s.terms[Partition(s.activeCount + 1)]);
    }
  }

  /** A rotator whose term is no longer active changes neither the tails nor the active count. */
  lemma LateRotatorChangesNothing(c: Config, s: State, p: Publisher)
    requires Inv(c, s) && Enabled(c, s, Step(p))
    requires s.procs[p].RotateRead? || s.procs[p].RotateSwap? || s.procs[p].RotateCount?
    requires s.procs[p].k < s.activeCount
    ensures Next(c, s, Step(p)).tails == s.tails && Next(c, s, Step(p)).activeCount == s.activeCount
  {
    hide ToInt32, TermOffset, TermID, IdOf;
    assert PublisherOk(c, s, s.procs[p]);
    if s.procs[p].RotateSwap? && s.tails[Partition(s.procs[p].count + 1)] == s.procs[p].rawTail {
      SwapOnlyForActive(c, s, p);
    }
  }

  // ---------------------------------------------------------------------------------------------
  // Exactly when a rotation is harmless
  // ---------------------------------------------------------------------------------------------

  /** The first two steps of `RotateLog`, run without interruption. */
  function ResetNextTail(c: Config, s: State, p: Publisher): (s': State)
    requires WellFormed(s) && p in s.procs && s.procs[p].RotateRead? && s.procs[p].count + 1 < TWO_31
  {
    var s1 := Next(c, s, Step(p));
    if s1.procs[p].RotateSwap? then Next(c, s1, Step(p)) else s1
  }

  /** An append that trips lands in a term at most one ahead of the active one. */
  lemma TripsAtMostOneAhead(c: Config, s: State, p: Publisher, n: int)
    requires Inv(c, s) && Enabled(c, s, DoAppend(p, n)) && Next(c, s, DoAppend(p, n)).procs[p].RotateRead?
    ensures var pc := Next(c, s, DoAppend(p, n)).procs[p];
            pc.k <= s.activeCount + 1 && (TripsEarly(c, s, DoAppend(p, n)) <==> pc.k == s.activeCount + 1)
  {
    hide ToInt32, TermOffset, TermID, IdOf;
    Partitions(s.activeCount);
  }

  lemma TimelyRotationIsHarmless(c: Config, s: State, p: Publisher, n: int)
    requires Inv(c, s) && Enabled(c, s, DoAppend(p, n)) && s.procs[p].count + 1 < TWO_31
    requires Next(c, s, DoAppend(p, n)).procs[p].RotateRead? && !TripsEarly(c, s, DoAppend(p, n))
    ensures TermsOk(ResetNextTail(c, Next(c, s, DoAppend(p, n)), p))
  {
    hide ToInt32, TermOffset, TermID, IdOf, Partition, PublisherOk;
    var s1 := Next(c, s, DoAppend(p, n));
    AppendKeepsInv(c, s, p, n);
    RotateReadKeepsInv(c, s1, p);
    var s2 := Next(c, s1, Step(p));
    if s2.procs[p].RotateSwap? { RotateSwapKeepsInv(c, s2, p); }
  }

  lemma EarlyRotationBreaksTerms(c: Config, s: State, p: Publisher, n: int)
    requires Inv(c, s) && Enabled(c, s, DoAppend(p, n)) && s.procs[p].count + 1 < TWO_31
    requires TripsEarly(c, s, DoAppend(p, n))
    ensures var s' := ResetNextTail(c, Next(c, s, DoAppend(p, n)), p); var n := s.activeCount;
            && s'.activeCount == n && WellFormed(s') && s'.terms[Partition(n - 1)] == n + 2
            && TermID(s'.tails[Partition(n - 1)]) == IdOf(c, n + 2)
  {
    hide ToInt32, TermOffset, TermID, IdOf;
    var s1 := Next(c, s, DoAppend(p, n));
    var i, j := Partition(s.procs[p].count), Partition(s.procs[p].count + 1);
    Partitions(s.activeCount);
    assert s.terms[i] == s.activeCount + 1 && j == Partition(s.activeCount - 1);
    assert TermID(s.tails[j]) == IdOf(c, s.terms[j]) && s1.tails[j] == s.tails[j];
    assert TermID(s.tails[i]) == IdOf(c, s.terms[i]);
    NextId(c, s.activeCount + 1);
    IdRange(c, s.activeCount + 2);
    TermIDOfReset(IdOf(c, s.activeCount + 2));
    var s2 := Next(c, s1, Step(p));
    assert s2.procs[p] == RotateSwap(s.procs[p].count, TermID(s.tails[i]), s.terms[i], s.tails[j]);
  }

  /** After an append that trips, resetting the next tail keeps the partitions right if and only if the append
      did not land ahead of the active term. */
  lemma RotationIsHarmlessIff(c: Config, s: State, p: Publisher, n: int)
    requires Inv(c, s) && Enabled(c, s, DoAppend(p, n)) && s.procs[p].count + 1 < TWO_31
    requires Next(c, s, DoAppend(p, n)).procs[p].RotateRead?
    ensures var s1 := Next(c, s, DoAppend(p, n));
            TermsOk(ResetNextTail(c, s1, p)) <==> !TripsEarly(c, s, DoAppend(p, n))
  {
    hide Inv, Next, ResetNextTail, TripsEarly, Partition;
    if TripsEarly(c, s, DoAppend(p, n)) {
      EarlyRotationBreaksTerms(c, s, p, n);
    } else {
      TimelyRotationIsHarmless(c, s, p, n);
    }
  }
}

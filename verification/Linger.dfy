/** Lingering resources of the client conductor (aeron/clientconductor.go): a bounded channel that application
    goroutines and the conductor fill and only the conductor drains. */
module Linger {
  /** Capacity of the channel. */
  const CAPACITY: nat := 1024

  datatype Resource = Nil | Handle(id: int)

  datatype Entry = Entry(lastTime: int, resource: Resource)

  /** An entry taken out for good; it was closed unless it is nil. forced: by the final drain. */
  datatype Retired = Retired(entry: Entry, at: int, forced: bool)

  predicate Expired(timeout: int, now: int, e: Entry) {
    timeout < now - e.lastTime
  }

  // ---------------------------------------------------------------------------------------------
  // The loops
  // ---------------------------------------------------------------------------------------------

  class ClientConductor {
    const resourceLingerTimeoutNs: int
    var lingeringResources: seq<Entry>
    var closed: seq<Resource>  // in the order `Close` was called

    constructor (timeout: int)
      ensures resourceLingerTimeoutNs == timeout && lingeringResources == [] && closed == []
    {
      resourceLingerTimeoutNs := timeout;
      lingeringResources, closed := [], [];
    }

    method Close(res: Resource)
      modifies this`closed
      ensures closed == old(closed) + Handles([res])
    {
      if res != Nil {
        closed := closed + [res];
      }
    }

    /** `onCheckManagedResources`, while releasing goroutines fill the queue: arrivals come meanwhile, came(k) of them
        before the k-th channel operation. Of the m entries queued or arrived, the expired ones at the front are closed,
        the first one that has not expired goes to the back, and the rest keep their order. */
    method OnCheckManagedResources(now: int, arrivals: seq<Entry>, came: nat -> nat)
      returns (ghost n: nat, ghost m: nat)
      requires Counts(came, |arrivals|)
      modifies this
      ensures var all := old(lingeringResources) + arrivals;
              && n <= m && |old(lingeringResources)| <= m <= |all|
              && (forall i | 0 <= i < n :: Expired(resourceLingerTimeoutNs, now, all[i]))
              && closed == old(closed) + Handles(ResourcesOf(all[..n]))
              && (if n == m then lingeringResources == []
                  else !Expired(resourceLingerTimeoutNs, now, all[n]) && lingeringResources == all[n + 1..m] + [all[n]])
    {
      hide Closing, Waiting, Expired, Checked, Counts, Handles;
      CountsUp(came, |arrivals|, 0);
      ghost var first, was := lingeringResources, closed;
      ghost var all := first + arrivals;
      n, m := 0, |first|;
      NothingChecked(resourceLingerTimeoutNs, now, first, arrivals, was);
      var k: nat, v: nat, moreToCheck := 0, 0, true;
      while moreToCheck
        invariant v <= came(k) <= |arrivals| && n <= m == |first| + v
        invariant Closing(resourceLingerTimeoutNs, now, all, n, was, closed)
        invariant moreToCheck ==> Waiting(all, n, m, lingeringResources)
        invariant !moreToCheck ==> Checked(resourceLingerTimeoutNs, now, all, n, m, lingeringResources)
        decreases |all| - n, moreToCheck
      {
        CountsUp(came, |arrivals|, k);
        CountsUp(came, |arrivals|, k + 1);
        moreToCheck, v := CheckOne(now, arrivals, v, came(k), came(k + 1), first, n, was);
        m := |first| + v;
        if moreToCheck {
          n := n + 1;
        }
        k := k + 1;
      }
      CheckedMeans(resourceLingerTimeoutNs, now, all, n, m, lingeringResources, was, closed);
    }

    /** One round of the loop: with c1 arrivals before the receive and c2 before the send, if there is one. */
    method CheckOne(now: int, arrivals: seq<Entry>, v: nat, c1: nat, c2: nat, ghost first: seq<Entry>, ghost n: nat,
                    ghost was: seq<Resource>) returns (more: bool, v': nat)
      requires v <= c1 <= c2 <= |arrivals| && Waiting(first + arrivals, n, |first| + v, lingeringResources)
      requires Closing(resourceLingerTimeoutNs, now, first + arrivals, n, was, closed)
      modifies this
      ensures c1 <= v' <= c2
      ensures Closing(resourceLingerTimeoutNs, now, first + arrivals, if more then n + 1 else n, was, closed)
      ensures more ==> n < |first + arrivals| && n + 1 <= |first| + v'
                       && Waiting(first + arrivals, n + 1, |first| + v', lingeringResources)
      ensures !more ==> n <= |first| + v'
                        && Checked(resourceLingerTimeoutNs, now, first + arrivals, n, |first| + v', lingeringResources)
    {
      hide Closing, Waiting, Expired, Checked, Handles;
      ghost var all := first + arrivals;
      MoreArrive(first, arrivals, n, v, c1, lingeringResources);
      lingeringResources := lingeringResources + arrivals[v..c1];
      WaitingFront(all, n, |first| + c1, lingeringResources);
      more, v' := false, c1;
      if lingeringResources != [] {
        var r := lingeringResources[0];
        lingeringResources := lingeringResources[1..];
        more := Expired(resourceLingerTimeoutNs, now, r);
        if more {
          ClosingNext(resourceLingerTimeoutNs, now, all, n, was, closed);
          Close(r.resource);
        } else {
          MoreArrive(first, arrivals, n + 1, c1, c2, lingeringResources);
          lingeringResources := lingeringResources + arrivals[c1..c2];
          v' := c2;
          PutBack(resourceLingerTimeoutNs, now, all, n, |first| + c2, lingeringResources);
          lingeringResources := lingeringResources + [r];
        }
      } else {
        NoneLeft(resourceLingerTimeoutNs, now, all, n, |first| + c1);
      }
    }

    /** `forceCloseResources`: everything queued is closed, in order. */
    method ForceCloseResources()
      modifies this
      ensures lingeringResources == []
      ensures closed == old(closed) + Handles(ResourcesOf(old(lingeringResources)))
    {
      ghost var q, n := lingeringResources, 0;
      while lingeringResources != []
        invariant n <= |q| && lingeringResources == q[n..]
        invariant closed == old(closed) + Handles(ResourcesOf(q[..n]))
        decreases |lingeringResources|
      {
        var r := lingeringResources[0];
        lingeringResources := lingeringResources[1..];
        Close(r.resource);
        OneMoreHandle(q, n);
        n := n + 1;
      }
      assert q[..n] == q;
    }
  }

  function ResourcesOf(es: seq<Entry>): (rs: seq<Resource>)
    ensures |rs| == |es| && forall i | 0 <= i < |es| :: rs[i] == es[i].resource
  {
    seq(|es|, i requires 0 <= i < |es| => es[i].resource)
  }

  /** The resources that are there, in order. */
  function Handles(rs: seq<Resource>): (hs: seq<Resource>) {
    if rs == [] then []
    else Handles(rs[..|rs| - 1]) + (if rs[|rs| - 1] == Nil then [] else [rs[|rs| - 1]])
  }

  /** How many have come by each operation: more and more, up to a bound. */
  ghost predicate Counts(came: nat -> nat, bound: nat) {
    forall i: nat, k: nat | i <= k :: came(i) <= came(k) <= bound
  }

  lemma CountsUp(came: nat -> nat, bound: nat, k: nat)
    requires Counts(came, bound)
    ensures came(k) <= came(k + 1) <= bound
  {
  }

  /** The first n entries have expired, and the resources among them have been closed. */
  ghost predicate Closing(timeout: int, now: int, all: seq<Entry>, n: nat, was: seq<Resource>, closed: seq<Resource>) {
    && n <= |all| && (forall i | 0 <= i < n :: Expired(timeout, now, all[i]))
    && closed == was + Handles(ResourcesOf(all[..n]))
  }

  /** The queue holds entries n to m of all that is queued or arrives. */
  ghost predicate Waiting(all: seq<Entry>, n: nat, m: nat, queue: seq<Entry>) {
    n <= m <= |all| && queue == all[n..m]
  }

  /** A check has ended: nothing is left, or the first young entry went to the back. */
  ghost predicate Checked(timeout: int, now: int, all: seq<Entry>, n: nat, m: nat, queue: seq<Entry>) {
    && n <= m <= |all|
    && (if n == m then queue == [] else !Expired(timeout, now, all[n]) && queue == all[n + 1..m] + [all[n]])
  }

  lemma NothingChecked(timeout: int, now: int, first: seq<Entry>, arrivals: seq<Entry>, was: seq<Resource>)
    ensures Closing(timeout, now, first + arrivals, 0, was, was) && Waiting(first + arrivals, 0, |first|, first)
  {
  }

  lemma MoreArrive(first: seq<Entry>, arrivals: seq<Entry>, n: nat, v: nat, to: nat, queue: seq<Entry>)
    requires v <= to <= |arrivals| && Waiting(first + arrivals, n, |first| + v, queue)
    ensures Waiting(first + arrivals, n, |first| + to, queue + arrivals[v..to])
  {
  }

  lemma WaitingFront(all: seq<Entry>, n: nat, m: nat, queue: seq<Entry>)
    requires Waiting(all, n, m, queue)
    ensures n <= m <= |all| && (queue == [] <==> n == m)
    ensures queue != [] ==> n < |all| && queue[0] == all[n] && Waiting(all, n + 1, m, queue[1..])
  {
  }

  lemma ClosingNext(timeout: int, now: int, all: seq<Entry>, n: nat, was: seq<Resource>, closed: seq<Resource>)
    requires Closing(timeout, now, all, n, was, closed) && n < |all| && Expired(timeout, now, all[n])
    ensures Closing(timeout, now, all, n + 1, was, closed + Handles([all[n].resource]))
  {
    hide Handles;
    OneMoreHandle(all, n);
  }

  lemma PutBack(timeout: int, now: int, all: seq<Entry>, n: nat, m: nat, queue: seq<Entry>)
    requires n < |all| && Waiting(all, n + 1, m, queue) && !Expired(timeout, now, all[n])
    ensures Checked(timeout, now, all, n, m, queue + [all[n]])
  {
  }

  lemma NoneLeft(timeout: int, now: int, all: seq<Entry>, n: nat, m: nat)
    requires n == m <= |all|
    ensures Checked(timeout, now, all, n, m, [])
  {
  }

  lemma CheckedMeans(timeout: int, now: int, all: seq<Entry>, n: nat, m: nat, queue: seq<Entry>, was: seq<Resource>,
                     closed: seq<Resource>)
    requires Checked(timeout, now, all, n, m, queue) && Closing(timeout, now, all, n, was, closed)
    ensures n <= m <= |all| && (forall i | 0 <= i < n :: Expired(timeout, now, all[i]))
    ensures closed == was + Handles(ResourcesOf(all[..n]))
    ensures if n == m then queue == [] else !Expired(timeout, now, all[n]) && queue == all[n + 1..m] + [all[n]]
  {
  }

  lemma OneMoreHandle(q: seq<Entry>, n: nat)
    requires n < |q|
    ensures Handles(ResourcesOf(q[..n + 1])) == Handles(ResourcesOf(q[..n])) + Handles([q[n].resource])
  {
    var rs := ResourcesOf(q[..n + 1]);
    assert rs[..n] == ResourcesOf(q[..n]);
    assert Handles([q[n].resource][..0]) == [];
  }

  // ---------------------------------------------------------------------------------------------
  // The conductor among application goroutines
  // ---------------------------------------------------------------------------------------------

  /** What the conductor is doing. Sending: it holds an entry that it is about to put into the channel. */
  datatype Phase = Idle | Checking(now: int) | Sending(e: Entry) | Draining | Stopped

  /** sent: every entry anyone started to put into the channel. */
  datatype State = State(queue: seq<Entry>, phase: Phase, sent: multiset<Entry>, retired: seq<Retired>)

  datatype Label =
    | Release(e: Entry)      // an application goroutine releases a publication or subscription
    | Unavailable(e: Entry)  // the conductor is told that an image is gone
    | StartCheck(now: int)
    | TakeExpired
    | TakeYoung
    | EndCheck
    | Send                   // the conductor's pending entry goes into the channel
    | StartDrain
    | DrainOne
    | EndDrain

  ghost predicate Init(s: State) {
    s == State([], Idle, multiset{}, [])
  }

  ghost predicate Step(timeout: int, s: State, l: Label, s': State) {
    match l
    case Release(e) =>
      |s.queue| < CAPACITY && s' == s.(queue := s.queue + [e], sent := s.sent + multiset{e})
    case Unavailable(e) =>
      s.phase == Idle && s' == s.(phase := Sending(e), sent := s.sent + multiset{e})
    case StartCheck(now) =>
      s.phase == Idle && s' == s.(phase := Checking(now))
    case TakeExpired =>
      && s.phase.Checking? && s.queue != [] && Expired(timeout, s.phase.now, s.queue[0])
      && s' == s.(queue := s.queue[1..], retired := s.retired + [Retired(s.queue[0], s.phase.now, false)])
    case TakeYoung =>
      && s.phase.Checking? && s.queue != [] && !Expired(timeout, s.phase.now, s.queue[0])
      && s' == s.(queue := s.queue[1..], phase := Sending(s.queue[0]))
    case EndCheck =>
      s.phase.Checking? && s.queue == [] && s' == s.(phase := Idle)
    case Send =>
      s.phase.Sending? && |s.queue| < CAPACITY && s' == s.(queue := s.queue + [s.phase.e], phase := Idle)
    case StartDrain =>
      s.phase == Idle && s' == s.(phase := Draining)
    case DrainOne =>
      && s.phase == Draining && s.queue != []
      && s' == s.(queue := s.queue[1..], retired := s.retired + [Retired(s.queue[0], 0, true)])
    case EndDrain =>
      s.phase == Draining && s.queue == [] && s' == s.(phase := Stopped)
  }

  ghost predicate IsRun(timeout: int, states: seq<State>, labels: seq<Label>) {
    && |states| == |labels| + 1
    && forall k {:trigger labels[k]} | 0 <= k < |labels| :: Step(timeout, states[k], labels[k], states[k + 1])
  }

  // ---------------------------------------------------------------------------------------------
  // Conservation
  // ---------------------------------------------------------------------------------------------

  function Taken(rs: seq<Retired>): (es: multiset<Entry>) {
    if rs == [] then multiset{} else Taken(rs[..|rs| - 1]) + multiset{rs[|rs| - 1].entry}
  }

  function Held(s: State): (es: multiset<Entry>) {
    if s.phase.Sending? then multiset{s.phase.e} else multiset{}
  }

  /** Everything sent is queued, in the conductor's hands, or retired, and nothing is in two of these places; only the
      drain retires what has not expired. */
  ghost predicate Inv(timeout: int, s: State) {
    && Conserved(s) && |s.queue| <= CAPACITY
    && forall i | 0 <= i < |s.retired| :: s.retired[i].forced || Expired(timeout, s.retired[i].at, s.retired[i].entry)
  }

  lemma FirstAndRest(q: seq<Entry>)
    requires q != []
    ensures multiset(q) == multiset{q[0]} + multiset(q[1..])
  {
    assert q == [q[0]] + q[1..];
  }

  lemma TakenOneMore(rs: seq<Retired>, r: Retired)
    ensures Taken(rs + [r]) == Taken(rs) + multiset{r.entry}
  {
    assert (rs + [r])[..|rs|] == rs;
  }

  /** Everything sent is queued, held or retired. */
  ghost predicate Conserved(s: State) {
    s.sent == multiset(s.queue) + Held(s) + Taken(s.retired)
  }

  lemma RetireConserves(s: State, s': State, r: Retired)
    requires Conserved(s) && s.queue != [] && r.entry == s.queue[0] && Held(s') == Held(s) && s'.sent == s.sent
    requires s'.queue == s.queue[1..] && s'.retired == s.retired + [r]
    ensures Conserved(s')
  {
    hide Taken, Held;
    FirstAndRest(s.queue);
    TakenOneMore(s.retired, r);
  }

  lemma HoldConserves(s: State, s': State)
    requires Conserved(s) && s.queue != [] && Held(s) == multiset{} && Held(s') == multiset{s.queue[0]}
    requires s'.queue == s.queue[1..] && s'.retired == s.retired && s'.sent == s.sent
    ensures Conserved(s')
  {
    hide Taken, Held;
    FirstAndRest(s.queue);
  }

  lemma StepConserves(timeout: int, s: State, l: Label, s': State)
    requires Conserved(s) && Step(timeout, s, l, s')
    ensures Conserved(s')
  {
    hide Taken, Expired;
    match l
    case TakeExpired => hide Conserved; RetireConserves(s, s', Retired(s.queue[0], s.phase.now, false));
    case DrainOne => hide Conserved; RetireConserves(s, s', Retired(s.queue[0], 0, true));
    case TakeYoung => hide Conserved; HoldConserves(s, s');
    case _ =>
  }

  lemma StepKeepsInv(timeout: int, s: State, l: Label, s': State)
    requires Inv(timeout, s) && Step(timeout, s, l, s')
    ensures Inv(timeout, s')
  {
    hide Taken, Held, Conserved;
    StepConserves(timeout, s, l, s');
  }

  lemma {:induction false} RunKeepsInv(timeout: int, states: seq<State>, labels: seq<Label>, k: nat)
    requires IsRun(timeout, states, labels) && Init(states[0]) && k <= |labels|
    ensures Inv(timeout, states[k])
  {
    hide Inv, Step;
    if k > 0 {
      RunKeepsInv(timeout, states, labels, k - 1);
      assert Step(timeout, states[k - 1], labels[k - 1], states[k]);
      StepKeepsInv(timeout, states[k - 1], labels[k - 1], states[k]);
    } else {
      InitInv(timeout, states[0]);
    }
  }

  lemma InitInv(timeout: int, s: State)
    requires Init(s)
    ensures Inv(timeout, s)
  {
  }

  /** Over every run: an entry is retired at most as often as it was sent, and at the end of the drain exactly as often;
      what a check retired had lingered longer than the timeout. */
  lemma EachClosedOnce(timeout: int, states: seq<State>, labels: seq<Label>)
    requires IsRun(timeout, states, labels) && Init(states[0])
    ensures var s := states[|labels|];
            && Taken(s.retired) <= s.sent
            && (labels != [] && labels[|labels| - 1] == EndDrain ==> s.queue == [] && Taken(s.retired) == s.sent)
            && forall i | 0 <= i < |s.retired| ::
                 s.retired[i].forced || Expired(timeout, s.retired[i].at, s.retired[i].entry)
  {
    var n := |labels|;
    RunKeepsInv(timeout, states, labels, n);
    if n > 0 {
      assert Step(timeout, states[n - 1], labels[n - 1], states[n]);
    }
  }

  // ---------------------------------------------------------------------------------------------
  // Nothing lingers for ever behind a younger entry
  // ---------------------------------------------------------------------------------------------

  /** Checks that came to their end, by finding a young entry or an empty queue. */
  function ChecksDone(labels: seq<Label>): (n: nat) {
    if labels == [] then 0
    else (if labels[0] == TakeYoung || labels[0] == EndCheck then 1 else 0) + ChecksDone(labels[1..])
  }

  ghost predicate ChecksFrom(s: State, labels: seq<Label>, t: int) {
    && (s.phase.Checking? ==> s.phase.now >= t)
    && forall k | 0 <= k < |labels| && labels[k].StartCheck? :: labels[k].now >= t
  }

  lemma {:induction false} RetiredStays(timeout: int, states: seq<State>, labels: seq<Label>, e: Entry)
    requires IsRun(timeout, states, labels)
    ensures Taken(states[|labels|].retired)[e] >= Taken(states[0].retired)[e]
    decreases |labels|
  {
    if labels != [] {
      assert Step(timeout, states[0], labels[0], states[1]);
      StepKeepsRetired(timeout, states[0], labels[0], states[1], e);
      Rest(timeout, states, labels);
      RetiredStays(timeout, states[1..], labels[1..], e);
    }
  }

  lemma StepKeepsRetired(timeout: int, s: State, l: Label, s': State, e: Entry)
    requires Step(timeout, s, l, s')
    ensures Taken(s'.retired)[e] >= Taken(s.retired)[e]
  {
    if l.TakeExpired? || l.DrainOne? {
      assert s'.retired[..|s.retired|] == s.retired;
    }
  }

  lemma Rest(timeout: int, states: seq<State>, labels: seq<Label>)
    requires IsRun(timeout, states, labels) && labels != []
    ensures IsRun(timeout, states[1..], labels[1..])
  {
    forall k {:trigger labels[1..][k]} | 0 <= k < |labels| - 1
      ensures Step(timeout, states[1..][k], labels[1..][k], states[1..][k + 1])
    {
      assert Step(timeout, states[k + 1], labels[k + 1], states[k + 2]);
    }
  }

  /** Where a waiting entry that has expired is after one step. */
  lemma WaitingStep(timeout: int, s: State, l: Label, s': State, i: nat, t: int)
    requires Step(timeout, s, l, s') && i < |s.queue| && Expired(timeout, t, s.queue[i])
    requires s.phase.Checking? ==> s.phase.now >= t
    ensures l != EndCheck && (l == TakeYoung ==> i > 0)
    ensures if l in {TakeExpired, TakeYoung, DrainOne}
            then (if i == 0 then Taken(s'.retired)[s.queue[0]] > Taken(s.retired)[s.queue[0]]
                  else i - 1 < |s'.queue| && s'.queue[i - 1] == s.queue[i])
            else i < |s'.queue| && s'.queue[i] == s.queue[i]
  {
    if l.TakeExpired? || l.DrainOne? {
      assert s'.retired[..|s.retired|] == s.retired;
    }
  }

  /** A check puts a young entry behind older ones, so the queue is not in order; yet an entry that has expired and has
      i others in front of it is closed by the time i + 1 more checks have ended, whatever is enqueued meanwhile. */
  lemma {:induction false} ExpiredClosedWithin(timeout: int, states: seq<State>, labels: seq<Label>, i: nat, t: int)
    requires IsRun(timeout, states, labels) && i < |states[0].queue|
    requires Expired(timeout, t, states[0].queue[i]) && ChecksFrom(states[0], labels, t) && ChecksDone(labels) > i
    ensures var e := states[0].queue[i]; Taken(states[|labels|].retired)[e] > Taken(states[0].retired)[e]
    decreases |labels|
  {
    hide Taken;
    var s, s', l := states[0], states[1], labels[0];
    var e := s.queue[i];
    assert Step(timeout, s, l, s');
    WaitingStep(timeout, s, l, s', i, t);
    Rest(timeout, states, labels);
    NextChecks(timeout, s, labels, s', t);
    StepKeepsRetired(timeout, s, l, s', e);
    if l in {TakeExpired, TakeYoung, DrainOne} {
      if i == 0 {
        RetiredStays(timeout, states[1..], labels[1..], e);
      } else {
        ExpiredClosedWithin(timeout, states[1..], labels[1..], i - 1, t);
      }
    } else {
      ExpiredClosedWithin(timeout, states[1..], labels[1..], i, t);
    }
  }

  lemma NextChecks(timeout: int, s: State, labels: seq<Label>, s': State, t: int)
    requires labels != [] && Step(timeout, s, labels[0], s') && ChecksFrom(s, labels, t)
    ensures ChecksFrom(s', labels[1..], t)
  {
  }

  // ---------------------------------------------------------------------------------------------
  // The conductor can block
  // ---------------------------------------------------------------------------------------------

  ghost predicate Conductor(l: Label) {
    !l.Release?
  }

  /** The conductor can go on unless it has an entry to send and the channel is full; being the only one to take
      entries out, it then waits for ever. */
  lemma ConductorBlockedIff(timeout: int, s: State)
    requires s.phase != Stopped
    ensures (exists l, s' :: Conductor(l) && Step(timeout, s, l, s')) <==> !(s.phase.Sending? && |s.queue| >= CAPACITY)
  {
    var rest := if s.queue == [] then [] else s.queue[1..];
    match s.phase
    case Idle => assert Step(timeout, s, StartDrain, s.(phase := Draining)) && Conductor(StartDrain);
    case Checking(now) =>
      if s.queue == [] {
        assert Step(timeout, s, EndCheck, s.(phase := Idle)) && Conductor(EndCheck);
      } else if Expired(timeout, now, s.queue[0]) {
        var retired := s.retired + [Retired(s.queue[0], now, false)];
        assert Step(timeout, s, TakeExpired, s.(queue := rest, retired := retired));
        assert Conductor(TakeExpired);
      } else {
        assert Step(timeout, s, TakeYoung, s.(queue := rest, phase := Sending(s.queue[0]))) && Conductor(TakeYoung);
      }
    case Sending(e) =>
      if |s.queue| < CAPACITY {
        assert Step(timeout, s, Send, s.(queue := s.queue + [e], phase := Idle)) && Conductor(Send);
      }
    case Draining =>
      if s.queue == [] {
        assert Step(timeout, s, EndDrain, s.(phase := Stopped)) && Conductor(EndDrain);
      } else {
        assert Step(timeout, s, DrainOne, s.(queue := rest, retired := s.retired + [Retired(s.queue[0], 0, true)]));
        assert Conductor(DrainOne);
      }
  }

  ghost predicate Reachable(timeout: int, s: State) {
    exists states: seq<State>, labels: seq<Label> ::
      IsRun(timeout, states, labels) && Init(states[0]) && states[|labels|] == s
  }

  lemma ReachableStep(timeout: int, s: State, l: Label, s': State)
    requires Reachable(timeout, s) && Step(timeout, s, l, s')
    ensures Reachable(timeout, s')
  {
    hide Step;
    var states: seq<State>, labels: seq<Label> :|
      IsRun(timeout, states, labels) && Init(states[0]) && states[|labels|] == s;
    var more, ls := states + [s'], labels + [l];
    forall k {:trigger ls[k]} | 0 <= k < |ls|
      ensures Step(timeout, more[k], ls[k], more[k + 1])
    {
      if k < |labels| { assert Step(timeout, states[k], labels[k], states[k + 1]); }
    }
    assert IsRun(timeout, more, ls) && more[|ls|] == s';
  }

  lemma {:induction false} FillQueue(timeout: int, e: Entry, n: nat) returns (s: State)
    requires n <= CAPACITY
    ensures Reachable(timeout, s) && s.phase == Idle && |s.queue| == n && forall i | 0 <= i < n :: s.queue[i] == e
  {
    if n == 0 {
      s := State([], Idle, multiset{}, []);
      var none: seq<Label> := [];
      assert IsRun(timeout, [s], none) && Init([s][0]) && [s][|none|] == s;
    } else {
      var s0 := FillQueue(timeout, e, n - 1);
      s := s0.(queue := s0.queue + [e], sent := s0.sent + multiset{e});
      ReachableStep(timeout, s0, Release(e), s);
    }
  }

  /** This happens: with the channel full of young entries, a check takes one out, a release puts another in its place,
      and the check has nowhere to put the entry back. So the check loop does not always end. */
  lemma BlockedCheckIsReachable(timeout: int, e: Entry) returns (s: State)
    ensures Reachable(timeout, s) && s.phase == Sending(e) && |s.queue| == CAPACITY
    ensures forall l, s' :: !Step(timeout, s, l, s')
  {
    hide Reachable;
    var full := FillQueue(timeout, e, CAPACITY);
    var now := e.lastTime + timeout;
    var checking := full.(phase := Checking(now));
    ReachableStep(timeout, full, StartCheck(now), checking);
    var sending := checking.(queue := full.queue[1..], phase := Sending(full.queue[0]));
    ReachableStep(timeout, checking, TakeYoung, sending);
    s := sending.(queue := sending.queue + [e], sent := sending.sent + multiset{e});
    ReachableStep(timeout, sending, Release(e), s);
  }
}

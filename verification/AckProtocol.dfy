/** The acknowledgement protocol over every run of the agent. */
module AckProtocol {
  import opened ClusterAgent

  /** Everything that can happen to the agent, in any order. */
  datatype Op =
    | Recover(core: Core)             // recoverState, once the snapshot is loaded
    | RequestAck(position: int)
    | TerminateAt(position: int)
    | JoinAt(join: JoinEvent)
    | PollService(imagePosition: int)
    | Log(env: Env, e: LogEvent)
    | LogDone(imagePosition: int)

  function Apply(a: Agent, op: Op): (a': Agent) {
    match op
    case Recover(core) =>
      a.(core := core, isServiceActive := true,
         control := SendAck(a.control, core.logPosition, core.clusterTime, NULL_VALUE, Startup))
    case RequestAck(p) => TakeAckRequest(a, p)
    case TerminateAt(p) => TakeTermination(a, p)
    case JoinAt(e) => TakeJoin(a, e)
    case PollService(p) => PollServiceAdapter(a, p)
    case Log(env, e) => Deliver(env, a, e)
    case LogDone(p) => CloseLog(a, p)
  }

  /** A crashed agent does nothing more. */
  function Run(ops: seq<Op>): (a: Agent) {
    if ops == [] then Fresh()
    else
      var a := Run(ops[..|ops| - 1]);
      if a.crashed then a else Apply(a, ops[|ops| - 1])
  }

  // ---------------------------------------------------------------------------------------------
  // What acknowledgements answer
  // ---------------------------------------------------------------------------------------------

  /** The positions acknowledged on request, with repetitions. */
  function Answered(acks: seq<Ack>): (ps: multiset<int>) {
    if acks == [] then multiset{}
    else Answered(acks[..|acks| - 1])
         + (match acks[|acks| - 1].cause case Requested(p) => multiset{p} case _ => multiset{})
  }

  /** The termination positions acted on, with repetitions. */
  function Obeyed(acks: seq<Ack>): (ps: multiset<int>) {
    if acks == [] then multiset{}
    else Obeyed(acks[..|acks| - 1])
         + (match acks[|acks| - 1].cause case Termination(p) => multiset{p} case _ => multiset{})
  }

  function QuitAcks(acks: seq<Ack>): (n: nat) {
    if acks == [] then 0 else QuitAcks(acks[..|acks| - 1]) + (if acks[|acks| - 1].cause.Quit? then 1 else 0)
  }

  function TerminateCalls(calls: seq<ServiceCall>): (n: nat) {
    if calls == [] then 0
    else TerminateCalls(calls[..|calls| - 1]) + (if calls[|calls| - 1].OnTerminate? then 1 else 0)
  }

  lemma OneMoreAck(acks: seq<Ack>, k: Ack)
    ensures Answered(acks + [k])
         == Answered(acks) + (match k.cause case Requested(p) => multiset{p} case _ => multiset{})
    ensures Obeyed(acks + [k]) == Obeyed(acks) + (match k.cause case Termination(p) => multiset{p} case _ => multiset{})
    ensures QuitAcks(acks + [k]) == QuitAcks(acks) + (if k.cause.Quit? then 1 else 0)
  {
    assert (acks + [k])[..|acks|] == acks;
  }

  lemma OneMoreCall(calls: seq<ServiceCall>, c: ServiceCall)
    ensures TerminateCalls(calls + [c]) == TerminateCalls(calls) + (if c.OnTerminate? then 1 else 0)
  {
    assert (calls + [c])[..|calls|] == calls;
  }

  function PendingOf(p: int): (ps: multiset<int>) {
    if p == NULL_POSITION then multiset{} else multiset{p}
  }

  /** Ids are consecutive from zero, and an answer never precedes the log position it waits for. */
  ghost predicate AcksOk(acks: seq<Ack>) {
    forall i | 0 <= i < |acks| ::
      && acks[i].ackId == i
      && (acks[i].cause.Requested? ==> acks[i].logPosition >= acks[i].cause.position)
      && (acks[i].cause.Termination? ==> acks[i].logPosition >= acks[i].cause.position)
  }

  ghost predicate ControlOk(c: Control) {
    && c.nextAckId == |c.acks| && AcksOk(c.acks)
    && Answered(c.acks) + PendingOf(c.requestedAckPosition) <= multiset(c.requests)
    && Obeyed(c.acks) + PendingOf(c.terminationPosition) <= multiset(c.terminations)
    && QuitAcks(c.acks) == c.quits
  }

  ghost predicate Inv(a: Agent) {
    ControlOk(a.control) && TerminateCalls(a.calls) == |Obeyed(a.control.acks)| + a.control.quits
  }

  /** Sending an acknowledgement that answers nothing. */
  lemma PlainAckOk(c: Control, position: int, timestamp: int, relevantId: int, cause: Cause)
    requires ControlOk(c) && (cause.Startup? || cause.Join? || cause.Snapshot?)
    ensures ControlOk(SendAck(c, position, timestamp, relevantId, cause))
    ensures var c' := SendAck(c, position, timestamp, relevantId, cause);
            Obeyed(c'.acks) == Obeyed(c.acks) && c'.quits == c.quits
  {
    OneMoreAck(c.acks, Ack(position, timestamp, c.nextAckId, relevantId, cause));
  }

  lemma TerminateOk(a: Agent, cause: Cause)
    requires cause.Termination? || cause.Quit?
    requires cause.Termination? ==> Inv(a) && cause.position == a.control.terminationPosition != NULL_POSITION
                                    && a.core.logPosition >= cause.position
    requires cause.Quit? ==> a.control.quits > 0
                             && Inv(a.(control := a.control.(quits := a.control.quits - 1)))
    ensures Inv(Terminate(a, cause))
  {
    hide Answered, Obeyed, QuitAcks, TerminateCalls;
    var k := Ack(a.core.logPosition, a.core.clusterTime, a.control.nextAckId, NULL_VALUE, cause);
    OneMoreAck(a.control.acks, k);
    OneMoreCall(a.calls, OnTerminate);
  }

  lemma AckIfReachedOk(a: Agent)
    requires Inv(a)
    ensures Inv(AckIfReached(a))
  {
    hide Answered, Obeyed, QuitAcks, TerminateCalls;
    var p := a.control.requestedAckPosition;
    OneMoreAck(a.control.acks, Ack(a.core.logPosition, a.core.clusterTime, a.control.nextAckId, NULL_VALUE,
                                   Requested(p)));
  }

  lemma SetRoleOk(a: Agent, role: Role)
    requires Inv(a)
    ensures Inv(SetRole(a, role))
  {
    hide ControlOk, TerminateCalls, Obeyed;
    OneMoreCall(a.calls, OnRoleChange(role));
  }

  lemma PollServiceOk(a: Agent, imagePosition: int)
    requires Inv(a)
    ensures Inv(PollServiceAdapter(a, imagePosition))
  {
    var joined := JoinIfPending(a, imagePosition);
    assert Inv(joined) by {
      hide ControlOk, TerminateCalls, Obeyed, SetRole;
      if joined != a && a.member.pendingJoin.JoinPending? {
        var e := a.member.pendingJoin.e;
        PlainAckOk(a.control, e.logPosition, a.core.clusterTime, NULL_VALUE, Join);
        var m := a.member.(pendingJoin := NoJoin, hasImage := true, maxLogPosition := e.maxLogPosition,
                           standbySnapshots := e.isStandby, memberId := e.memberId);
        var b := a.(member := m, control := SendAck(a.control, e.logPosition, a.core.clusterTime, NULL_VALUE, Join));
        SetRoleOk(b, e.role);
      }
    }
    hide Inv, ControlOk, JoinIfPending, Terminate, AckIfReached;
    var p := joined.control.terminationPosition;
    if p != NULL_POSITION && joined.core.logPosition >= p {
      TerminateOk(joined, Termination(p));
    }
    AckIfReachedOk(TerminateIfReached(joined));
  }

  lemma DeliverOk(env: Env, a: Agent, e: LogEvent)
    requires Inv(a)
    ensures Inv(Deliver(env, a, e))
  {
    hide ControlOk, TerminateCalls, Obeyed, SendAck;
    match e
    case TimerEvent(p, id, t) => OneMoreCall(a.calls, OnTimerEvent(id, t));
    case SessionOpened(p, s, t) => OneMoreCall(a.calls, OnSessionOpen(s, t));
    case SessionClosed(p, id, t, r) =>
      if id in a.core.sessions { OneMoreCall(a.calls, OnSessionClose(a.core.sessions[id], t, r)); }
    case SessionMessage(p, id, t, bytes) => OneMoreCall(a.calls, OnSessionMessage(id, t, bytes));
    case NewLeadershipTerm(id, p, t, _, _) => OneMoreCall(a.calls, OnNewLeadershipTerm(id, p, t));
    case ServiceAction(p, t, _, _) => PlainAckOk(a.control, p, t, env.recordingId, Snapshot);
    case MembershipChange(p, t, isQuit, id) =>
      if isQuit && id == a.member.memberId {
        var b := Advance(a, p, t).(control := a.control.(quits := a.control.quits + 1));
        assert b.control.(quits := b.control.quits - 1) == a.control;
        TerminateOk(b, Quit);
      }
  }

  lemma TakePositionOk(a: Agent, p: int)
    requires Inv(a)
    ensures Inv(TakeAckRequest(a, p)) && Inv(TakeTermination(a, p))
  {
    hide Answered, Obeyed, QuitAcks, TerminateCalls;
    var c := a.control;
    assert multiset(c.requests + [p]) == multiset(c.requests) + multiset{p};
    assert multiset(c.terminations + [p]) == multiset(c.terminations) + multiset{p};
  }

  lemma ApplyOk(a: Agent, op: Op)
    requires Inv(a)
    ensures Inv(Apply(a, op))
  {
    hide ControlOk, TerminateCalls, Obeyed, SetRole, Deliver, PollServiceAdapter, TakeAckRequest, TakeTermination,
         SendAck;
    match op
    case Recover(core) => PlainAckOk(a.control, core.logPosition, core.clusterTime, NULL_VALUE, Startup);
    case RequestAck(p) => TakePositionOk(a, p);
    case TerminateAt(p) => TakePositionOk(a, p);
    case JoinAt(e) => SameControlOk(a, TakeJoin(a, e));
    case PollService(p) => PollServiceOk(a, p);
    case Log(env, e) => DeliverOk(env, a, e);
    case LogDone(p) =>
      var q := if p > a.core.logPosition then p else a.core.logPosition;
      SetRoleOk(a.(core := a.core.(logPosition := q), member := a.member.(hasImage := false)), Follower);
  }

  lemma SameControlOk(a: Agent, b: Agent)
    requires Inv(a) && b.control == a.control && b.calls == a.calls
    ensures Inv(b)
  {
  }

  lemma {:induction false} RunKeepsInv(ops: seq<Op>)
    ensures Inv(Run(ops))
  {
    hide Inv, Apply;
    if ops == [] {
      FreshOk();
    } else {
      RunKeepsInv(ops[..|ops| - 1]);
      var a := Run(ops[..|ops| - 1]);
      if !a.crashed { ApplyOk(a, ops[|ops| - 1]); }
    }
  }

  lemma FreshOk()
    ensures Inv(Fresh())
  {
  }

  // ---------------------------------------------------------------------------------------------
  // What was received
  // ---------------------------------------------------------------------------------------------

  /** The positions at which acknowledgement was asked for, in order, until a crash. */
  function Requests(ops: seq<Op>): (ps: seq<int>) {
    if ops == [] then []
    else
      var rest, op := ops[..|ops| - 1], ops[|ops| - 1];
      Requests(rest) + (if !Run(rest).crashed && op.RequestAck? then [op.position] else [])
  }

  function Terminations(ops: seq<Op>): (ps: seq<int>) {
    if ops == [] then []
    else
      var rest, op := ops[..|ops| - 1], ops[|ops| - 1];
      Terminations(rest) + (if !Run(rest).crashed && op.TerminateAt? then [op.position] else [])
  }

  /** A QUIT that names the member this agent is at that moment. */
  predicate IsOwnQuit(a: Agent, op: Op) {
    op.Log? && op.e.MembershipChange? && op.e.isQuit && op.e.memberId == a.member.memberId
  }

  function OwnQuits(ops: seq<Op>): (n: nat) {
    if ops == [] then 0
    else
      var rest, op := ops[..|ops| - 1], ops[|ops| - 1];
      OwnQuits(rest) + (if !Run(rest).crashed && IsOwnQuit(Run(rest), op) then 1 else 0)
  }

  /** The agent's history is exactly what it received. */
  lemma {:induction false} HistoryIsReceived(ops: seq<Op>)
    ensures Run(ops).control.requests == Requests(ops)
    ensures Run(ops).control.terminations == Terminations(ops)
    ensures Run(ops).control.quits == OwnQuits(ops)
  {
    hide Apply, IsOwnQuit;
    if ops != [] {
      var rest, op := ops[..|ops| - 1], ops[|ops| - 1];
      HistoryIsReceived(rest);
      if !Run(rest).crashed {
        ReceivedOneMore(Run(rest), op);
      }
    }
  }

  lemma ReceivedOneMore(a: Agent, op: Op)
    ensures var c := Apply(a, op).control;
            && c.requests == a.control.requests + (if op.RequestAck? then [op.position] else [])
            && c.terminations == a.control.terminations + (if op.TerminateAt? then [op.position] else [])
            && c.quits == a.control.quits + (if IsOwnQuit(a, op) then 1 else 0)
  {
    hide Deliver, PollServiceAdapter;
    if op.Log? { DeliverReceives(op.env, a, op.e); }
    if op.PollService? { PollReceives(a, op.imagePosition); }
  }

  lemma DeliverReceives(env: Env, a: Agent, e: LogEvent)
    ensures var c := Deliver(env, a, e).control;
            && c.requests == a.control.requests && c.terminations == a.control.terminations
            && c.quits == a.control.quits
                          + (if e.MembershipChange? && e.isQuit && e.memberId == a.member.memberId then 1 else 0)
  {
  }

  lemma PollReceives(a: Agent, imagePosition: int)
    ensures var c := PollServiceAdapter(a, imagePosition).control;
            c.requests == a.control.requests && c.terminations == a.control.terminations && c.quits == a.control.quits
  {
  }

  lemma CountOneMore<T>(s: seq<T>, x: T, y: T)
    ensures multiset(s + [x])[y] == multiset(s)[y] + (if x == y then 1 else 0)
  {
  }

  lemma NotCrashedBefore(ops: seq<Op>)
    requires ops != [] && !Run(ops).crashed
    ensures !Run(ops[..|ops| - 1]).crashed
  {
    hide Apply;
  }

  /** A position is counted once for each time an acknowledgement was asked for there, and exactly so while the agent
      has not crashed. */
  lemma {:induction false} RequestsAreCounted(ops: seq<Op>, p: int)
    ensures multiset(Requests(ops))[p] <= multiset(ops)[RequestAck(p)]
    ensures !Run(ops).crashed ==> multiset(Requests(ops))[p] == multiset(ops)[RequestAck(p)]
  {
    hide Run;
    if ops != [] {
      var rest, op := ops[..|ops| - 1], ops[|ops| - 1];
      RequestsAreCounted(rest, p);
      assert ops == rest + [op];
      CountOneMore(rest, op, RequestAck(p));
      if op.RequestAck? { CountOneMore(Requests(rest), op.position, p); }
      if !Run(ops).crashed { NotCrashedBefore(ops); }
    }
  }

  lemma {:induction false} TerminationsAreCounted(ops: seq<Op>, p: int)
    ensures multiset(Terminations(ops))[p] <= multiset(ops)[TerminateAt(p)]
    ensures !Run(ops).crashed ==> multiset(Terminations(ops))[p] == multiset(ops)[TerminateAt(p)]
  {
    hide Run;
    if ops != [] {
      var rest, op := ops[..|ops| - 1], ops[|ops| - 1];
      TerminationsAreCounted(rest, p);
      assert ops == rest + [op];
      CountOneMore(rest, op, TerminateAt(p));
      if op.TerminateAt? { CountOneMore(Terminations(rest), op.position, p); }
      if !Run(ops).crashed { NotCrashedBefore(ops); }
    }
  }

  // ---------------------------------------------------------------------------------------------
  // The theorem
  // ---------------------------------------------------------------------------------------------

  /** Over every run: ack ids are 0, 1, 2, ... with no gap and no repeat; a requested ack or termination position is
      acted on no more often than it was asked for and never before the log reaches it; and the service is told to
      terminate exactly for such positions and for QUITs that name this member. */
  lemma AcksInOrderAndOnTime(ops: seq<Op>)
    ensures var a := Run(ops); var acks := a.control.acks;
            && (forall i | 0 <= i < |acks| :: acks[i].ackId == i)
            && (forall i | 0 <= i < |acks| && (acks[i].cause.Requested? || acks[i].cause.Termination?) ::
                  acks[i].logPosition >= acks[i].cause.position)
            && Answered(acks) + PendingOf(a.control.requestedAckPosition) <= multiset(Requests(ops))
            && Obeyed(acks) + PendingOf(a.control.terminationPosition) <= multiset(Terminations(ops))
            && TerminateCalls(a.calls) == |Obeyed(acks)| + OwnQuits(ops)
  {
    hide Run, Answered, Obeyed, TerminateCalls, QuitAcks;
    RunKeepsInv(ops);
    HistoryIsReceived(ops);
  }
}

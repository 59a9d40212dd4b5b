/** The clustered service container (cluster/clustered_service_agent.go): a state machine driven by the replicated
    log and by the consensus module's service messages. */
module ClusterAgent {
  import opened Bits

  const NULL_POSITION: int := -1
  const NULL_VALUE: int := -1

  datatype Session = Session(id: int, responseStreamId: int, responseChannel: string, encodedPrincipal: seq<byte>)

  datatype Role = Follower | Candidate | Leader

  datatype TimeUnit = Millis | Micros | Nanos

  /** Why an acknowledgement was sent, kept as history. */
  datatype Cause = Startup | Join | Requested(position: int) | Termination(position: int) | Quit | Snapshot

  datatype Ack = Ack(logPosition: int, timestamp: int, ackId: int, relevantId: int, cause: Cause)

  datatype ServiceCall =
    | OnSessionOpen(session: Session, timestamp: int)
    | OnSessionClose(session: Session, timestamp: int, reason: int)
    | OnSessionMessage(sessionId: int, timestamp: int, payload: seq<byte>)
    | OnTimerEvent(correlationId: int, timestamp: int)
    | OnNewLeadershipTerm(leadershipTermId: int, logPosition: int, timestamp: int)
    | OnRoleChange(role: Role)
    | OnTerminate

  datatype JoinEvent = JoinEvent(logPosition: int, maxLogPosition: int, memberId: int, isStandby: bool, role: Role)

  datatype Pending = NoJoin | JoinPending(e: JoinEvent)

  /** What the log determines and a snapshot restores. */
  datatype Core = Core(logPosition: int, clusterTime: int, leadershipTermId: int, timeUnit: TimeUnit,
                       sessions: map<int, Session>)

  /** Acknowledgements and the positions they wait for; requests, terminations and quits are history. */
  datatype Control = Control(nextAckId: int, terminationPosition: int, requestedAckPosition: int, acks: seq<Ack>,
                             requests: seq<int>, terminations: seq<int>, quits: nat)

  /** This node's place in the cluster and its log image. */
  datatype Membership = Membership(memberId: int, role: Role, standbySnapshots: bool, pendingJoin: Pending,
                                   hasImage: bool, maxLogPosition: int)

  /** crashed: a handler panicked. calls: what the service was told. */
  datatype Agent = Agent(core: Core, control: Control, member: Membership, isServiceActive: bool, crashed: bool,
                         calls: seq<ServiceCall>)

  /** What the log adapter hands to the agent, once decoded. */
  datatype LogEvent =
    | TimerEvent(position: int, correlationId: int, timestamp: int)
    | SessionOpened(position: int, session: Session, timestamp: int)
    | SessionClosed(position: int, sessionId: int, timestamp: int, reason: int)
    | SessionMessage(position: int, sessionId: int, timestamp: int, payload: seq<byte>)
    | NewLeadershipTerm(termId: int, logPosition: int, timestamp: int, timeUnit: TimeUnit, appVersion: int)
    | ServiceAction(logPosition: int, timestamp: int, isSnapshot: bool, flags: int)
    | MembershipChange(logPosition: int, timestamp: int, isQuit: bool, memberId: int)

  /** The outside world: our version, which response channels can be opened, and what recording a snapshot yields. */
  datatype Env = Env(appVersion: int, connects: Session -> bool, recordingId: int)

  /** `util.SemanticVersionMajor`. */
  function VersionMajor(version: int): (m: int) {
    (version / 0x1_0000) % 0x100
  }

  // ---------------------------------------------------------------------------------------------
  // Handlers
  // ---------------------------------------------------------------------------------------------

  /** Every acknowledgement goes through `getAndIncrementNextAckId`. */
  function SendAck(c: Control, logPosition: int, timestamp: int, relevantId: int, cause: Cause): (c': Control) {
    c.(acks := c.acks + [Ack(logPosition, timestamp, c.nextAckId, relevantId, cause)], nextAckId := c.nextAckId + 1)
  }

  function Advance(a: Agent, position: int, timestamp: int): (a': Agent) {
    a.(core := a.core.(logPosition := position, clusterTime := timestamp))
  }

  function Terminate(a: Agent, cause: Cause): (a': Agent) {
    var c := SendAck(a.control, a.core.logPosition, a.core.clusterTime, NULL_VALUE, cause);
    a.(isServiceActive := false, calls := a.calls + [OnTerminate],
       control := c.(terminationPosition := NULL_POSITION))
  }

  function SetRole(a: Agent, role: Role): (a': Agent) {
    if role == a.member.role then a
    else a.(member := a.member.(role := role), calls := a.calls + [OnRoleChange(role)])
  }

  /** `onSessionOpen`; a clash or a response channel that cannot be opened makes the adapter panic. */
  function OpenSession(env: Env, a: Agent, position: int, session: Session, timestamp: int): (a': Agent) {
    var a1 := Advance(a, position, timestamp);
    if session.id in a.core.sessions || !env.connects(session) then a1.(crashed := true)
    else a1.(core := a1.core.(sessions := a.core.sessions[session.id := session]),
             calls := a.calls + [OnSessionOpen(session, timestamp)])
  }

  function CloseSession(a: Agent, position: int, sessionId: int, timestamp: int, reason: int): (a': Agent) {
    var a1 := Advance(a, position, timestamp);
    if sessionId in a.core.sessions
    then a1.(core := a1.core.(sessions := a.core.sessions - {sessionId}),
             calls := a.calls + [OnSessionClose(a.core.sessions[sessionId], timestamp, reason)])
    else a1
  }

  function NewTerm(env: Env, a: Agent, e: LogEvent): (a': Agent)
    requires e.NewLeadershipTerm?
  {
    if VersionMajor(env.appVersion) != VersionMajor(e.appVersion) then a.(crashed := true)
    else a.(core := a.core.(logPosition := e.logPosition, clusterTime := e.timestamp, leadershipTermId := e.termId,
                            timeUnit := e.timeUnit),
            calls := a.calls + [OnNewLeadershipTerm(e.termId, e.logPosition, e.timestamp)])
  }

  /** `shouldSnapshot`: the standby flag is bit 0. */
  predicate ShouldSnapshot(a: Agent, flags: int) {
    flags == 0 || (a.member.standbySnapshots && flags % 2 == 1)
  }

  /** `onServiceAction`, with the recording id that taking the snapshot yields, or NULL_VALUE when that failed. */
  function Act(env: Env, a: Agent, e: LogEvent): (a': Agent)
    requires e.ServiceAction?
  {
    var a1 := Advance(a, e.logPosition, e.timestamp);
    if e.isSnapshot && ShouldSnapshot(a, e.flags)
    then a1.(control := SendAck(a.control, e.logPosition, e.timestamp, env.recordingId, Snapshot))
    else a1
  }

  function ChangeMembership(a: Agent, e: LogEvent): (a': Agent)
    requires e.MembershipChange?
  {
    var a1 := Advance(a, e.logPosition, e.timestamp);
    if e.isQuit && e.memberId == a.member.memberId
    then Terminate(a1.(control := a.control.(quits := a.control.quits + 1)), Quit) else a1
  }

  function Deliver(env: Env, a: Agent, e: LogEvent): (a': Agent) {
    match e
    case TimerEvent(p, id, t) => Advance(a, p, t).(calls := a.calls + [OnTimerEvent(id, t)])
    case SessionOpened(p, s, t) => OpenSession(env, a, p, s, t)
    case SessionClosed(p, id, t, r) => CloseSession(a, p, id, t, r)
    case SessionMessage(p, id, t, bytes) => Advance(a, p, t).(calls := a.calls + [OnSessionMessage(id, t, bytes)])
    case NewLeadershipTerm(_, _, _, _, _) => NewTerm(env, a, e)
    case ServiceAction(_, _, _, _) => Act(env, a, e)
    case MembershipChange(_, _, _, _) => ChangeMembership(a, e)
  }

  /** `joinActiveLog`, whose error result the caller ignores. */
  function JoinActiveLog(a: Agent, e: JoinEvent, imagePosition: int): (a': Agent) {
    if imagePosition != a.core.logPosition || e.logPosition != a.core.logPosition then a
    else
      var m := a.member.(hasImage := true, maxLogPosition := e.maxLogPosition, standbySnapshots := e.isStandby,
                         memberId := e.memberId);
      SetRole(a.(member := m, control := SendAck(a.control, e.logPosition, a.core.clusterTime, NULL_VALUE, Join)),
              e.role)
  }

  function JoinIfPending(a: Agent, imagePosition: int): (a': Agent) {
    if a.member.pendingJoin.JoinPending? && !a.member.hasImage
    then JoinActiveLog(a.(member := a.member.(pendingJoin := NoJoin)), a.member.pendingJoin.e, imagePosition) else a
  }

  function TerminateIfReached(a: Agent): (a': Agent) {
    var p := a.control.terminationPosition;
    if p != NULL_POSITION && a.core.logPosition >= p then Terminate(a, Termination(p)) else a
  }

  function AckIfReached(a: Agent): (a': Agent) {
    var p := a.control.requestedAckPosition;
    if p != NULL_POSITION && a.core.logPosition >= p then
      var c := SendAck(a.control, a.core.logPosition, a.core.clusterTime, NULL_VALUE, Requested(p));
      a.(control := c.(requestedAckPosition := NULL_POSITION))
    else a
  }

  /** `pollServiceAdapter` after the service messages have been taken in. */
  function PollServiceAdapter(a: Agent, imagePosition: int): (a': Agent) {
    AckIfReached(TerminateIfReached(JoinIfPending(a, imagePosition)))
  }

  /** `onJoinLog`, `onServiceTerminationPosition`, `onRequestServiceAck`: the consensus module's messages. */
  function TakeJoin(a: Agent, e: JoinEvent): (a': Agent) {
    a.(member := a.member.(maxLogPosition := e.logPosition, pendingJoin := JoinPending(e)))
  }

  function TakeTermination(a: Agent, p: int): (a': Agent) {
    a.(control := a.control.(terminationPosition := p, terminations := a.control.terminations + [p]))
  }

  function TakeAckRequest(a: Agent, p: int): (a': Agent) {
    a.(control := a.control.(requestedAckPosition := p, requests := a.control.requests + [p]))
  }

  /** `closeLog`. */
  function CloseLog(a: Agent, imagePosition: int): (a': Agent) {
    var p := if imagePosition > a.core.logPosition then imagePosition else a.core.logPosition;
    SetRole(a.(core := a.core.(logPosition := p), member := a.member.(hasImage := false)), Follower)
  }

  /** `NewClusteredServiceAgent`. */
  function Fresh(): (a: Agent) {
    Agent(Core(NULL_POSITION, 0, 0, Millis, map[]), Control(0, NULL_POSITION, NULL_POSITION, [], [], [], 0),
          Membership(0, Follower, false, NoJoin, false, 0), false, false, [])
  }
}

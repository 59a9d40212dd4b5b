/** The clustered service container as an object whose handlers update it in place
    (cluster/clustered_service_agent.go). Its state is always that of a run of `AckProtocol`. */
module ServiceContainer {
  import opened ClusterAgent
  import opened AckProtocol

  lemma RunOneMore(ops: seq<Op>, op: Op)
    requires !Run(ops).crashed
    ensures Run(ops + [op]) == Apply(Run(ops), op)
  {
    assert (ops + [op])[..|ops|] == ops;
  }

  lemma NextAckIdIsCount(ops: seq<Op>)
    ensures Run(ops).control.nextAckId == |Run(ops).control.acks|
  {
    RunKeepsInv(ops);
  }

  predicate Reached(p: int, logPosition: int) {
    p != NULL_POSITION && logPosition >= p
  }

  /** Polling the service adapter acts on exactly the pending positions the log has reached. */
  lemma PollActsOnReached(a: Agent, imagePosition: int)
    ensures var a' := PollServiceAdapter(a, imagePosition); var c, c' := a.control, a'.control;
            var acked := Reached(c.requestedAckPosition, a.core.logPosition);
            var ended := Reached(c.terminationPosition, a.core.logPosition);
            && a'.core == a.core && a'.crashed == a.crashed
            && c'.requestedAckPosition == (if acked then NULL_POSITION else c.requestedAckPosition)
            && c'.terminationPosition == (if ended then NULL_POSITION else c.terminationPosition)
            && a'.isServiceActive == (a.isServiceActive && !ended)
            && Answered(c'.acks) == Answered(c.acks) + (if acked then multiset{c.requestedAckPosition} else multiset{})
            && Obeyed(c'.acks) == Obeyed(c.acks) + (if ended then multiset{c.terminationPosition} else multiset{})
  {
    hide Answered, Obeyed, QuitAcks;
    var joined := JoinIfPending(a, imagePosition);
    JoinAnswersNothing(a, imagePosition);
    var p := joined.control.terminationPosition;
    OneMoreAck(joined.control.acks, Ack(joined.core.logPosition, joined.core.clusterTime, joined.control.nextAckId,
                                        NULL_VALUE, Termination(p)));
    hide JoinIfPending;
    var ended := TerminateIfReached(joined);
    OneMoreAck(ended.control.acks, Ack(ended.core.logPosition, ended.core.clusterTime, ended.control.nextAckId,
                                       NULL_VALUE, Requested(ended.control.requestedAckPosition)));
  }

  /** Polling takes up a pending join if there is no image yet, and joins exactly when the event, the image and the
      agent agree on the position. */
  lemma PollJoinsIff(a: Agent, imagePosition: int)
    ensures var m, m' := a.member, PollServiceAdapter(a, imagePosition).member;
            if m.hasImage || m.pendingJoin.NoJoin? then m' == m
            else var e := m.pendingJoin.e;
              if imagePosition == e.logPosition == a.core.logPosition
              then m' == Membership(e.memberId, e.role, e.isStandby, NoJoin, true, e.maxLogPosition)
              else m' == m.(pendingJoin := NoJoin)
  {
  }

  lemma JoinAnswersNothing(a: Agent, imagePosition: int)
    ensures var a' := JoinIfPending(a, imagePosition); var c, c' := a.control, a'.control;
            && a'.core == a.core && a'.crashed == a.crashed && a'.isServiceActive == a.isServiceActive
            && c'.requestedAckPosition == c.requestedAckPosition && c'.terminationPosition == c.terminationPosition
            && Answered(c'.acks) == Answered(c.acks) && Obeyed(c'.acks) == Obeyed(c.acks)
  {
    hide Answered, Obeyed, QuitAcks;
    if a.member.pendingJoin.JoinPending? {
      var e := a.member.pendingJoin.e;
      OneMoreAck(a.control.acks, Ack(e.logPosition, a.core.clusterTime, a.control.nextAckId, NULL_VALUE, Join));
    }
  }

  /** The container's fields, grouped as in `Agent`. */
  class ClusteredServiceAgent {
    var core: Core
    var control: Control
    var member: Membership
    var isServiceActive: bool
    var crashed: bool
    var calls: seq<ServiceCall>
    ghost var ops: seq<Op>  // everything that has happened to it

    function View(): (a: Agent)
      reads this
    {
      Agent(core, control, member, isServiceActive, crashed, calls)
    }

    ghost predicate Valid()
      reads this
    {
      View() == Run(ops)
    }

    constructor ()
      ensures Valid() && ops == [] && !crashed
    {
      core := Core(NULL_POSITION, 0, 0, Millis, map[]);
      control := Control(0, NULL_POSITION, NULL_POSITION, [], [], [], 0);
      member := Membership(0, Follower, false, NoJoin, false, 0);
      isServiceActive, crashed, calls, ops := false, false, [], [];
    }

    // -------------------------------------------------------------------------------------------
    // Shared by the handlers
    // -------------------------------------------------------------------------------------------

    method ServiceAckRequest(position: int, timestamp: int, relevantId: int, cause: Cause)
      modifies this`control
      ensures control == SendAck(old(control), position, timestamp, relevantId, cause)
    {
      var ackId := control.nextAckId;
      control := control.(nextAckId := ackId + 1);
      control := control.(acks := control.acks + [Ack(position, timestamp, ackId, relevantId, cause)]);
    }

    method Terminate(cause: Cause)
      modifies this`isServiceActive, this`calls, this`control
      ensures View() == ClusterAgent.Terminate(old(View()), cause)
    {
      isServiceActive := false;
      calls := calls + [OnTerminate];
      ServiceAckRequest(core.logPosition, core.clusterTime, NULL_VALUE, cause);
      control := control.(terminationPosition := NULL_POSITION);
    }

    method SetRole(newRole: Role)
      modifies this`member, this`calls
      ensures View() == ClusterAgent.SetRole(old(View()), newRole)
    {
      if newRole != member.role {
        member := member.(role := newRole);
        calls := calls + [OnRoleChange(newRole)];
      }
    }

    method JoinActiveLog(e: JoinEvent, imagePosition: int)
      modifies this`member, this`control, this`calls
      ensures View() == ClusterAgent.JoinActiveLog(old(View()), e, imagePosition)
    {
      if imagePosition != core.logPosition || e.logPosition != core.logPosition {
        return;
      }
      member := member.(hasImage := true, maxLogPosition := e.maxLogPosition, standbySnapshots := e.isStandby);
      ServiceAckRequest(e.logPosition, core.clusterTime, NULL_VALUE, Join);
      member := member.(memberId := e.memberId);
      SetRole(e.role);
    }

    // -------------------------------------------------------------------------------------------
    // Messages of the consensus module
    // -------------------------------------------------------------------------------------------

    /** `recoverState`, once the snapshot is loaded: the service becomes active and says so once. */
    method RecoverState(restored: Core)
      requires Valid() && !crashed
      modifies this`core, this`isServiceActive, this`control, this`ops
      ensures Valid() && ops == old(ops) + [Recover(restored)]
      ensures isServiceActive && core == restored
      ensures control.acks
           == old(control.acks) + [Ack(core.logPosition, core.clusterTime, |old(control.acks)|, NULL_VALUE, Startup)]
      ensures Answered(control.acks) == old(Answered(control.acks)) && Obeyed(control.acks) == old(Obeyed(control.acks))
    {
      hide Run, Answered, Obeyed;
      NextAckIdIsCount(ops);
      OneMoreAck(control.acks, Ack(restored.logPosition, restored.clusterTime, control.nextAckId, NULL_VALUE, Startup));
      RunOneMore(ops, Recover(restored));
      core := restored;
      isServiceActive := true;
      ServiceAckRequest(core.logPosition, core.clusterTime, NULL_VALUE, Startup);
      ops := ops + [Recover(restored)];
    }

    /** `onJoinLog`: the join waits for the next poll, and a later one replaces it. */
    method OnJoinLog(event: JoinEvent)
      requires Valid() && !crashed
      modifies this`member, this`ops
      ensures Valid() && ops == old(ops) + [JoinAt(event)]
      ensures member == old(member).(maxLogPosition := event.logPosition, pendingJoin := JoinPending(event))
    {
      hide Run;
      RunOneMore(ops, JoinAt(event));
      member := member.(maxLogPosition := event.logPosition);
      member := member.(pendingJoin := JoinPending(event));
      ops := ops + [JoinAt(event)];
    }

    /** A later request replaces one that is still pending. */
    method OnRequestServiceAck(position: int)
      requires Valid() && !crashed
      modifies this`control, this`ops
      ensures Valid() && ops == old(ops) + [RequestAck(position)]
      ensures control.requestedAckPosition == position && control.acks == old(control.acks)
      ensures control.terminationPosition == old(control.terminationPosition)
    {
      hide Run;
      RunOneMore(ops, RequestAck(position));
      control := control.(requestedAckPosition := position, requests := control.requests + [position]);
      ops := ops + [RequestAck(position)];
    }

    method OnServiceTerminationPosition(position: int)
      requires Valid() && !crashed
      modifies this`control, this`ops
      ensures Valid() && ops == old(ops) + [TerminateAt(position)]
      ensures control.terminationPosition == position && control.acks == old(control.acks)
      ensures control.requestedAckPosition == old(control.requestedAckPosition)
    {
      hide Run;
      RunOneMore(ops, TerminateAt(position));
      control := control.(terminationPosition := position, terminations := control.terminations + [position]);
      ops := ops + [TerminateAt(position)];
    }

    /** `pollServiceAdapter` acts on exactly the pending positions that the log has reached: each is answered by one
        acknowledgement and forgotten, and one that has not been reached stays pending. */
    method PollServiceAdapter(imagePosition: int)
      requires Valid() && !crashed
      modifies this
      ensures Valid() && ops == old(ops) + [PollService(imagePosition)] && core == old(core) && !crashed
      ensures var p := old(control.requestedAckPosition);
              if Reached(p, core.logPosition)
              then control.requestedAckPosition == NULL_POSITION
                   && Answered(control.acks) == old(Answered(control.acks)) + multiset{p}
              else control.requestedAckPosition == p && Answered(control.acks) == old(Answered(control.acks))
      ensures var p := old(control.terminationPosition);
              if Reached(p, core.logPosition)
              then control.terminationPosition == NULL_POSITION
                   && Obeyed(control.acks) == old(Obeyed(control.acks)) + multiset{p}
              else control.terminationPosition == p && Obeyed(control.acks) == old(Obeyed(control.acks))
      ensures isServiceActive <==> old(isServiceActive) && !Reached(old(control.terminationPosition), core.logPosition)
      ensures if old(member.hasImage) || old(member.pendingJoin).NoJoin? then member == old(member)
              else var e := old(member.pendingJoin).e;
                if imagePosition == e.logPosition == core.logPosition
                then member == Membership(e.memberId, e.role, e.isStandby, NoJoin, true, e.maxLogPosition)
                else member == old(member).(pendingJoin := NoJoin)
    {
      hide Run, ClusterAgent.PollServiceAdapter, Answered, Obeyed;
      RunOneMore(ops, PollService(imagePosition));
      PollActsOnReached(View(), imagePosition);
      PollJoinsIff(View(), imagePosition);
      ActOnPending(imagePosition);
      ops := ops + [PollService(imagePosition)];
    }

    method ActOnPending(imagePosition: int)
      modifies this`member, this`control, this`calls, this`isServiceActive
      ensures View() == ClusterAgent.PollServiceAdapter(old(View()), imagePosition)
    {
      hide ClusterAgent.JoinActiveLog, ClusterAgent.Terminate;
      if member.pendingJoin.JoinPending? && !member.hasImage {
        var event := member.pendingJoin.e;
        member := member.(pendingJoin := NoJoin);
        JoinActiveLog(event, imagePosition);
      }
      ghost var joined := View();
      assert joined == JoinIfPending(old(View()), imagePosition);
      if control.terminationPosition != NULL_POSITION && core.logPosition >= control.terminationPosition {
        Terminate(Termination(control.terminationPosition));
      }
      ghost var terminated := View();
      assert terminated == TerminateIfReached(joined);
      if control.requestedAckPosition != NULL_POSITION && core.logPosition >= control.requestedAckPosition {
        ServiceAckRequest(core.logPosition, core.clusterTime, NULL_VALUE, Requested(control.requestedAckPosition));
        control := control.(requestedAckPosition := NULL_POSITION);
      }
    }

    // -------------------------------------------------------------------------------------------
    // Events of the log
    // -------------------------------------------------------------------------------------------

    /** The container panics on a clash and on a channel that cannot be opened; only otherwise is the session in the
        table and the service told. */
    method OnSessionOpen(env: Env, position: int, session: Session, timestamp: int)
      requires Valid() && !crashed
      modifies this`core, this`crashed, this`calls, this`ops
      ensures Valid() && ops == old(ops) + [Log(env, SessionOpened(position, session, timestamp))]
      ensures core.logPosition == position && core.clusterTime == timestamp
      ensures crashed <==> session.id in old(core.sessions) || !env.connects(session)
      ensures !crashed ==> core.sessions == old(core.sessions)[session.id := session]
                           && calls == old(calls) + [ServiceCall.OnSessionOpen(session, timestamp)]
      ensures crashed ==> core.sessions == old(core.sessions) && calls == old(calls)
    {
      hide Run;
      ghost var op := Log(env, SessionOpened(position, session, timestamp));
      RunOneMore(ops, op);
      core := core.(logPosition := position, clusterTime := timestamp);
      if session.id in core.sessions || !env.connects(session) {
        crashed := true;
      } else {
        core := core.(sessions := core.sessions[session.id := session]);
        calls := calls + [ServiceCall.OnSessionOpen(session, timestamp)];
      }
      ops := ops + [op];
    }

    /** Opening and closing are inverse on the table; an unknown session is ignored. */
    method OnSessionClose(env: Env, position: int, sessionId: int, timestamp: int, reason: int)
      requires Valid() && !crashed
      modifies this`core, this`calls, this`ops
      ensures Valid() && ops == old(ops) + [Log(env, SessionClosed(position, sessionId, timestamp, reason))]
      ensures core.logPosition == position && core.clusterTime == timestamp && sessionId !in core.sessions
      ensures forall id | id != sessionId ::
                (id in core.sessions <==> id in old(core.sessions))
                && (id in core.sessions ==> core.sessions[id] == old(core.sessions)[id])
      ensures if sessionId in old(core.sessions)
              then calls == old(calls) + [ServiceCall.OnSessionClose(old(core.sessions)[sessionId], timestamp, reason)]
              else calls == old(calls)
    {
      hide Run;
      ghost var op := Log(env, SessionClosed(position, sessionId, timestamp, reason));
      RunOneMore(ops, op);
      core := core.(logPosition := position, clusterTime := timestamp);
      if sessionId in core.sessions {
        var session := core.sessions[sessionId];
        core := core.(sessions := core.sessions - {sessionId});
        calls := calls + [ServiceCall.OnSessionClose(session, timestamp, reason)];
      }
      ops := ops + [op];
    }

    /** Only a QUIT that names this member ends the service, with one acknowledgement. */
    method OnMembershipChange(env: Env, position: int, timestamp: int, isQuit: bool, memberId: int)
      requires Valid() && !crashed
      modifies this
      ensures Valid() && !crashed
      ensures ops == old(ops) + [Log(env, MembershipChange(position, timestamp, isQuit, memberId))]
      ensures core.logPosition == position && core.sessions == old(core.sessions) && member == old(member)
      ensures if isQuit && memberId == member.memberId
              then !isServiceActive && TerminateCalls(calls) == old(TerminateCalls(calls)) + 1
                   && |control.acks| == |old(control.acks)| + 1 && control.terminationPosition == NULL_POSITION
              else isServiceActive == old(isServiceActive) && calls == old(calls) && control == old(control)
    {
      hide Run, TerminateCalls;
      ghost var op := Log(env, MembershipChange(position, timestamp, isQuit, memberId));
      RunOneMore(ops, op);
      OneMoreCall(calls, OnTerminate);
      core := core.(logPosition := position, clusterTime := timestamp);
      if memberId == member.memberId && isQuit {
        control := control.(quits := control.quits + 1);
        Terminate(Quit);
      }
      ops := ops + [op];
    }

    /** `closeLog`: the log position never moves back, and a node without a log is a follower. */
    method CloseLog(imagePosition: int)
      requires Valid() && !crashed
      modifies this`core, this`member, this`calls, this`ops
      ensures Valid() && ops == old(ops) + [LogDone(imagePosition)]
      ensures core.logPosition >= old(core.logPosition) && core.logPosition >= imagePosition
      ensures core.logPosition == old(core.logPosition) || core.logPosition == imagePosition
      ensures !member.hasImage && member.role == Follower && core.sessions == old(core.sessions)
      ensures calls == old(calls) + (if old(member.role) == Follower then [] else [OnRoleChange(Follower)])
    {
      hide Run;
      RunOneMore(ops, LogDone(imagePosition));
      if imagePosition > core.logPosition {
        core := core.(logPosition := imagePosition);
      }
      member := member.(hasImage := false);
      SetRole(Follower);
      ops := ops + [LogDone(imagePosition)];
    }
  }

  /** At any time: acknowledgements are numbered 0, 1, 2, ..., none precedes the position it answers, and none answers
      what was not asked. */
  lemma ContainerKeepsPromises(c: ClusteredServiceAgent)
    requires c.Valid()
    ensures forall i | 0 <= i < |c.control.acks| :: c.control.acks[i].ackId == i
    ensures forall i | 0 <= i < |c.control.acks|
                       && (c.control.acks[i].cause.Requested? || c.control.acks[i].cause.Termination?) ::
              c.control.acks[i].logPosition >= c.control.acks[i].cause.position
    ensures Answered(c.control.acks) <= multiset(Requests(c.ops))
    ensures Obeyed(c.control.acks) <= multiset(Terminations(c.ops))
    ensures TerminateCalls(c.calls) == |Obeyed(c.control.acks)| + OwnQuits(c.ops)
  {
    hide Run, Answered, Obeyed, TerminateCalls;
    AcksInOrderAndOnTime(c.ops);
  }
}

/** Recovery equivalence: a snapshot plus the rest of the log is as good as the whole log. */
module Recovery {
  import opened ClusterAgent
  import opened Snapshot

  // ---------------------------------------------------------------------------------------------
  // Loading what was taken
  // ---------------------------------------------------------------------------------------------

  /** The table after the first i session records. */
  ghost function Loaded(sessions: map<int, Session>, order: seq<int>, i: nat): (m: map<int, Session>)
    requires i <= |order| && forall j | 0 <= j < |order| :: order[j] in sessions
  {
    map id | id in sessions && id in order[..i] :: sessions[id]
  }

  lemma LoadedOneMore(sessions: map<int, Session>, order: seq<int>, i: nat)
    requires i < |order| && IsOrder(order, sessions)
    ensures Loaded(sessions, order, i + 1) == Loaded(sessions, order, i)[order[i] := sessions[order[i]]]
    ensures order[i] !in Loaded(sessions, order, i)
  {
    assert order[..i + 1] == order[..i] + [order[i]];
  }

  lemma LoadedAll(sessions: map<int, Session>, order: seq<int>)
    requires IsOrder(order, sessions)
    ensures Loaded(sessions, order, |order|) == sessions
  {
    assert order[..|order|] == order;
    var m := Loaded(sessions, order, |order|);
    assert forall id | id in sessions :: id in order && id in m && m[id] == sessions[id];
    assert m.Keys == sessions.Keys;
  }

  /** The loader's progress in the middle of a snapshot. */
  ghost function Middle(core: Core, appVersion: int, order: seq<int>, i: nat): (l: Loader)
    requires i <= |order| && IsOrder(order, core.sessions)
  {
    Loader(false, true, appVersion, core.timeUnit, false, Loaded(core.sessions, order, i))
  }

  /** Where the records of a snapshot are, when it is followed by the service's own data. */
  lemma SnapshotRecords(core: Core, appVersion: int, order: seq<int>, tail: seq<Record>)
    requires IsOrder(order, core.sessions)
    ensures var rs := SnapshotOf(core, appVersion, order) + tail;
            && |rs| == |order| + 2 + |tail| && rs[0] == MarkerFor(core, Begin, appVersion)
            && rs[|order| + 1] == MarkerFor(core, End, appVersion)
            && forall i | 0 <= i < |order| :: rs[1 + i] == SessionRecord(core.sessions[order[i]])
  {
    hide MarkerFor, IsOrder;
    OrderIsKnown(order, core.sessions);
    Placed(MarkerFor(core, Begin, appVersion), SessionRecords(core.sessions, order), MarkerFor(core, End, appVersion),
           tail);
  }

  lemma OrderIsKnown(order: seq<int>, sessions: map<int, Session>)
    requires IsOrder(order, sessions)
    ensures forall i | 0 <= i < |order| :: order[i] in sessions
  {
  }

  lemma Placed(first: Record, middle: seq<Record>, last: Record, tail: seq<Record>)
    ensures var rs := [first] + middle + [last] + tail;
            && |rs| == |middle| + 2 + |tail| && rs[0] == first && rs[|middle| + 1] == last
            && (forall i | 0 <= i < |middle| :: rs[1 + i] == middle[i]) && rs[|middle| + 2..] == tail
  {
  }

  lemma LoadsOne(connects: Session -> bool, core: Core, appVersion: int, order: seq<int>, i: nat)
    requires IsOrder(order, core.sessions) && KeyedById(core.sessions) && i < |order|
    requires connects(core.sessions[order[i]])
    ensures LoadRecord(connects, Middle(core, appVersion, order, i), SessionRecord(core.sessions[order[i]]))
            == Middle(core, appVersion, order, i + 1)
  {
    hide Loaded;
    LoadedOneMore(core.sessions, order, i);
    assert core.sessions[order[i]].id == order[i];
  }

  /** With every response channel available from record i on, the rest of the table is loaded and the loader stops
      right after the END marker, whatever follows it. */
  lemma {:induction false} LoadsTheRest(connects: Session -> bool, core: Core, appVersion: int, order: seq<int>,
                                        tail: seq<Record>, i: nat)
    requires IsOrder(order, core.sessions) && KeyedById(core.sessions) && i <= |order|
    requires forall j | i <= j < |order| :: connects(core.sessions[order[j]])
    ensures var rs := SnapshotOf(core, appVersion, order) + tail;
            |rs| == |order| + 2 + |tail| &&
            Load(connects, Middle(core, appVersion, order, i), rs, 1 + i)
            == (Loader(true, false, appVersion, core.timeUnit, false, core.sessions), |order| + 2)
    decreases |order| - i
  {
    hide Loaded, SnapshotOf;
    var rs := SnapshotOf(core, appVersion, order) + tail;
    SnapshotRecords(core, appVersion, order, tail);
    if i == |order| {
      LoadedAll(core.sessions, order);
      var l := LoadRecord(connects, Middle(core, appVersion, order, i), rs[1 + i]);
      assert l.isDone && Load(connects, l, rs, 2 + i) == (l, 2 + i);
    } else {
      assert rs[1 + i] == SessionRecord(core.sessions[order[i]]);
      LoadsOne(connects, core, appVersion, order, i);
      LoadsTheRest(connects, core, appVersion, order, tail, i + 1);
    }
  }

  /** A response channel that cannot be opened ends the load early, with that session missing. */
  lemma {:induction false} LoadStopsEarly(connects: Session -> bool, core: Core, appVersion: int, order: seq<int>,
                                          tail: seq<Record>, i: nat, bad: nat)
    requires IsOrder(order, core.sessions) && KeyedById(core.sessions) && i <= bad < |order|
    requires !connects(core.sessions[order[bad]])
    requires forall j | i <= j < bad :: connects(core.sessions[order[j]])
    ensures var rs := SnapshotOf(core, appVersion, order) + tail;
            |rs| == |order| + 2 + |tail| &&
            var (l, at) := Load(connects, Middle(core, appVersion, order, i), rs, 1 + i);
            at == bad + 2 && l.isDone && l.err && order[bad] !in l.sessions
    decreases bad - i
  {
    hide Loaded, SnapshotOf;
    var rs := SnapshotOf(core, appVersion, order) + tail;
    SnapshotRecords(core, appVersion, order, tail);
    assert rs[1 + i] == SessionRecord(core.sessions[order[i]]);
    if i == bad {
      LoadedOneMore(core.sessions, order, i);
      var l := LoadRecord(connects, Middle(core, appVersion, order, i), rs[1 + i]);
      assert l.isDone && Load(connects, l, rs, 2 + i) == (l, 2 + i);
    } else {
      LoadsOne(connects, core, appVersion, order, i);
      LoadStopsEarly(connects, core, appVersion, order, tail, i + 1, bad);
    }
  }

  lemma LoadBegins(connects: Session -> bool, core: Core, appVersion: int, order: seq<int>, tail: seq<Record>)
    requires IsOrder(order, core.sessions)
    ensures var rs := SnapshotOf(core, appVersion, order) + tail;
            |rs| == |order| + 2 + |tail|
            && Load(connects, FreshLoader(), rs, 0) == Load(connects, Middle(core, appVersion, order, 0), rs, 1)
  {
    SnapshotRecords(core, appVersion, order, tail);
    assert Loaded(core.sessions, order, 0) == map[];
  }

  lemma {:induction false} FirstFailure(connects: Session -> bool, core: Core, order: seq<int>, i: nat)
    returns (bad: nat)
    requires IsOrder(order, core.sessions) && i <= |order|
    ensures i <= bad <= |order| && (forall j | i <= j < bad :: connects(core.sessions[order[j]]))
    ensures bad < |order| ==> !connects(core.sessions[order[bad]])
    decreases |order| - i
  {
    bad := i;
    if i < |order| && connects(core.sessions[order[i]]) {
      bad := FirstFailure(connects, core, order, i + 1);
    }
  }

  /** Loading gives back the table that was taken and leaves the image exactly after the END marker if and only if
      every session's response channel can be opened; otherwise the table is silently incomplete, because the
      loader's error is never looked at. The order of the sessions does not matter. */
  lemma LoadRestoresIff(connects: Session -> bool, core: Core, appVersion: int, order: seq<int>, tail: seq<Record>)
    requires IsOrder(order, core.sessions) && KeyedById(core.sessions)
    ensures Load(connects, FreshLoader(), SnapshotOf(core, appVersion, order) + tail, 0)
            == (Loader(true, false, appVersion, core.timeUnit, false, core.sessions), |order| + 2)
       <==> forall id | id in core.sessions :: connects(core.sessions[id])
  {
    hide Load, SnapshotOf, Loaded;
    LoadBegins(connects, core, appVersion, order, tail);
    var bad := FirstFailure(connects, core, order, 0);
    if bad == |order| {
      LoadsTheRest(connects, core, appVersion, order, tail, 0);
      forall id | id in core.sessions
        ensures connects(core.sessions[id])
      {
        assert id in order;
      }
    } else {
      LoadStopsEarly(connects, core, appVersion, order, tail, 0, bad);
      assert order[bad] in core.sessions && !connects(core.sessions[order[bad]]);
    }
  }

  /** One session whose channel cannot be opened: the load ends, after that record, without it. */
  lemma SessionSilentlyLost(s: Session)
    ensures var core := Core(0, 0, 0, Millis, map[s.id := s]);
            var (l, at) := Load(_ => false, FreshLoader(), SnapshotOf(core, 0, [s.id]) + [], 0);
            at == 2 && l.isDone && s.id !in l.sessions
  {
    hide Load, SnapshotOf;
    var core := Core(0, 0, 0, Millis, map[s.id := s]);
    LoadBegins(_ => false, core, 0, [s.id], []);
    LoadStopsEarly(_ => false, core, 0, [s.id], [], 0, 0);
  }

  // ---------------------------------------------------------------------------------------------
  // Replay
  // ---------------------------------------------------------------------------------------------

  /** Applying a log; a panic stops the container. */
  function Replay(env: Env, a: Agent, log: seq<LogEvent>): (a': Agent) {
    if log == [] then a
    else
      var a1 := Replay(env, a, log[..|log| - 1]);
      if a1.crashed then a1 else Deliver(env, a1, log[|log| - 1])
  }

  lemma {:induction false} ReplaySplits(env: Env, a: Agent, log: seq<LogEvent>, k: nat)
    requires k <= |log|
    ensures Replay(env, a, log) == Replay(env, Replay(env, a, log[..k]), log[k..])
    decreases |log|
  {
    hide Deliver;
    if k == |log| {
      assert log[..k] == log && log[k..] == [];
    } else {
      var last := |log| - 1;
      ReplaySplits(env, a, log[..last], k);
      assert log[..last][..k] == log[..k] && log[..last][k..] == log[k..][..last - k];
    }
  }

  /** The same core, and for the same member the same calls on the service since a0 and b0. */
  ghost predicate SameFromHere(a: Agent, a0: Agent, b: Agent, b0: Agent) {
    && a.core == b.core && a.crashed == b.crashed
    && (a0.member.memberId == b0.member.memberId ==>
          && a.member.memberId == b.member.memberId
          && a0.calls <= a.calls && b0.calls <= b.calls && a.calls[|a0.calls|..] == b.calls[|b0.calls|..])
  }

  lemma DeliverDependsOnCore(env: Env, a: Agent, b: Agent, e: LogEvent) returns (more: seq<ServiceCall>)
    requires a.core == b.core && !a.crashed && !b.crashed
    ensures var a', b' := Deliver(env, a, e), Deliver(env, b, e);
            && a'.core == b'.core && a'.crashed == b'.crashed
            && a'.member == a.member && b'.member == b.member && a'.calls == a.calls + more
            && (a.member.memberId == b.member.memberId ==> b'.calls == b.calls + more)
  {
    more := Deliver(env, a, e).calls[|a.calls|..];
  }

  /** Two agents with the same core go through the same cores and tell the service the same things. */
  lemma {:induction false} ReplayDependsOnCore(env: Env, a: Agent, b: Agent, log: seq<LogEvent>)
    requires a.core == b.core && !a.crashed && !b.crashed
    ensures SameFromHere(Replay(env, a, log), a, Replay(env, b, log), b)
    ensures Replay(env, a, log).member == a.member && Replay(env, b, log).member == b.member
  {
    hide Deliver;
    if log != [] {
      var last := |log| - 1;
      ReplayDependsOnCore(env, a, b, log[..last]);
      var a1, b1 := Replay(env, a, log[..last]), Replay(env, b, log[..last]);
      if !a1.crashed {
        var more := DeliverDependsOnCore(env, a1, b1, log[last]);
        if a.member.memberId == b.member.memberId {
          assert (a1.calls + more)[|a.calls|..] == a1.calls[|a.calls|..] + more;
          assert (b1.calls + more)[|b.calls|..] == b1.calls[|b.calls|..] + more;
        }
      }
    }
  }

  lemma {:induction false} ReplayKeepsKeys(env: Env, a: Agent, log: seq<LogEvent>)
    requires KeyedById(a.core.sessions)
    ensures KeyedById(Replay(env, a, log).core.sessions)
  {
    if log != [] {
      ReplayKeepsKeys(env, a, log[..|log| - 1]);
      DeliverKeepsKeys(env, Replay(env, a, log[..|log| - 1]), log[|log| - 1]);
    }
  }

  lemma DeliverKeepsKeys(env: Env, a: Agent, e: LogEvent)
    requires KeyedById(a.core.sessions)
    ensures KeyedById(Deliver(env, a, e).core.sessions)
  {
  }

  /** Whoever is in the table had a response channel that could be opened. */
  ghost predicate AllConnect(connects: Session -> bool, sessions: map<int, Session>) {
    forall id | id in sessions :: connects(sessions[id])
  }

  lemma {:induction false} ReplayKeepsConnected(env: Env, a: Agent, log: seq<LogEvent>)
    requires AllConnect(env.connects, a.core.sessions)
    ensures AllConnect(env.connects, Replay(env, a, log).core.sessions)
  {
    if log != [] {
      ReplayKeepsConnected(env, a, log[..|log| - 1]);
      DeliverKeepsConnected(env, Replay(env, a, log[..|log| - 1]), log[|log| - 1]);
    }
  }

  lemma DeliverKeepsConnected(env: Env, a: Agent, e: LogEvent)
    requires AllConnect(env.connects, a.core.sessions)
    ensures AllConnect(env.connects, Deliver(env, a, e).core.sessions)
  {
  }

  // ---------------------------------------------------------------------------------------------
  // The theorem
  // ---------------------------------------------------------------------------------------------

  /** `recoverState` and `loadSnapshot`: positions, time and term from the recovery counter, the table and the time
      unit from the snapshot. */
  function Recovered(a: Agent, logPosition: int, clusterTime: int, leadershipTermId: int, l: Loader): (b: Agent) {
    a.(core := Core(logPosition, clusterTime, leadershipTermId, l.timeUnit, l.sessions))
  }

  /** For any log that replays without a panic and any point in it, taking a snapshot there with the sessions in any
      order, loading it into a fresh container and replaying the rest gives the same state as replaying the whole
      log, and the service of that member hears exactly the same events after the snapshot. The loader leaves the
      image at the service's own data. */
  lemma SnapshotPlusSuffixIsFullReplay(env: Env, a0: Agent, b0: Agent, log: seq<LogEvent>, k: nat, order: seq<int>,
                                       serviceData: seq<Record>)
    requires k <= |log| && a0.core.sessions == map[] && !a0.crashed && !b0.crashed
    requires !Replay(env, a0, log[..k]).crashed
    requires IsOrder(order, Replay(env, a0, log[..k]).core.sessions)
    ensures var mid := Replay(env, a0, log[..k]);
            var rs := SnapshotOf(mid.core, env.appVersion, order) + serviceData;
            var (l, at) := Load(env.connects, FreshLoader(), rs, 0);
            var b := Recovered(b0, mid.core.logPosition, mid.core.clusterTime, mid.core.leadershipTermId, l);
            && l.isDone && !l.err && VersionMajor(l.appVersion) == VersionMajor(env.appVersion)
            && at <= |rs| && rs[at..] == serviceData
            && SameFromHere(Replay(env, a0, log), mid, Replay(env, b, log[k..]), b)
  {
    hide Load, Deliver, SnapshotOf, Replay;
    var mid := Replay(env, a0, log[..k]);
    ReplayKeepsKeys(env, a0, log[..k]);
    ReplayKeepsConnected(env, a0, log[..k]);
    LoadRestoresIff(env.connects, mid.core, env.appVersion, order, serviceData);
    var l := Loader(true, false, env.appVersion, mid.core.timeUnit, false, mid.core.sessions);
    var b := Recovered(b0, mid.core.logPosition, mid.core.clusterTime, mid.core.leadershipTermId, l);
    ReplaySplits(env, a0, log, k);
    ReplayDependsOnCore(env, mid, b, log[k..]);
    TailAfterSnapshot(mid.core, env.appVersion, order, serviceData);
  }

  lemma TailAfterSnapshot(core: Core, appVersion: int, order: seq<int>, tail: seq<Record>)
    requires IsOrder(order, core.sessions)
    ensures var rs := SnapshotOf(core, appVersion, order) + tail; |order| + 2 <= |rs| && rs[|order| + 2..] == tail
  {
  }
}

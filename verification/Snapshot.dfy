/** Taking a snapshot (cluster/snapshot_taker.go, cluster/clustered_service_agent.go:625-660), loading it
    (cluster/snapshot_loader.go, cluster/clustered_service_agent.go:274-286), and recovery. */
module Snapshot {
  import opened ClusterAgent

  const SNAPSHOT_TYPE_ID: int := 2

  const NOT_CONNECTED: int := -1
  const BACK_PRESSURED: int := -2
  const ADMIN_ACTION: int := -3

  datatype Mark = Begin | Section | End

  /** A fragment of the snapshot stream, as the loader sorts it. */
  datatype Record =
    | Marker(typeId: int, logPosition: int, leadershipTermId: int, mark: Mark, timeUnit: TimeUnit, appVersion: int)
    | SessionRecord(session: Session)
    | Undecodable  // a marker or session that does not decode
    | Ignored      // too short, another schema, or another template

  // ---------------------------------------------------------------------------------------------
  // Taking
  // ---------------------------------------------------------------------------------------------

  function MarkerFor(core: Core, mark: Mark, appVersion: int): (r: Record) {
    Marker(SNAPSHOT_TYPE_ID, core.logPosition, core.leadershipTermId, mark, core.timeUnit, appVersion)
  }

  /** The session records in the order the map was ranged over. */
  function SessionRecords(sessions: map<int, Session>, order: seq<int>): (rs: seq<Record>)
    requires forall i | 0 <= i < |order| :: order[i] in sessions
    ensures |rs| == |order| && forall i | 0 <= i < |order| :: rs[i] == SessionRecord(sessions[order[i]])
  {
    seq(|order|, i requires 0 <= i < |order| => SessionRecord(sessions[order[i]]))
  }

  lemma OneMoreSession(sessions: map<int, Session>, order: seq<int>, id: int)
    requires (forall i | 0 <= i < |order| :: order[i] in sessions) && id in sessions
    ensures SessionRecords(sessions, order + [id]) == SessionRecords(sessions, order) + [SessionRecord(sessions[id])]
  {
  }

  /** Every session once, in any order; sessions are stored under their own ids. */
  ghost predicate IsOrder(order: seq<int>, sessions: map<int, Session>) {
    && (forall i | 0 <= i < |order| :: order[i] in sessions) && (forall id | id in sessions :: id in order)
    && (forall i, j | 0 <= i < j < |order| :: order[i] != order[j])
  }

  ghost predicate KeyedById(sessions: map<int, Session>) {
    forall id | id in sessions :: sessions[id].id == id
  }

  ghost function SnapshotOf(core: Core, appVersion: int, order: seq<int>): (rs: seq<Record>)
    requires forall i | 0 <= i < |order| :: order[i] in core.sessions
  {
    [MarkerFor(core, Begin, appVersion)] + SessionRecords(core.sessions, order) + [MarkerFor(core, End, appVersion)]
  }

  predicate Retry(result: int) {
    result == NOT_CONNECTED || result == BACK_PRESSURED || result == ADMIN_ACTION
  }

  class SnapshotTaker {
    var publication: seq<Record>

    constructor ()
      ensures publication == []
    {
      publication := [];
    }

    /** `offer`: results are what the publication answers until the timeout. A record is published at most once, and
        exactly when the call returns a non-negative result of an actual attempt. */
    method Offer(record: Record, results: seq<int>) returns (ret: int)
      modifies this
      ensures ret == OfferResult(results)
      ensures publication == old(publication) + (if results != [] && ret >= 0 then [record] else [])
    {
      ret := 0;
      var i := 0;
      while i < |results|
        invariant 0 <= i <= |results| && publication == old(publication)
        invariant i > 0 ==> ret == results[i - 1] && Retry(ret)
        invariant i == 0 ==> ret == 0
        invariant results != [] ==> OfferResult(results) == if i < |results| then OfferResult(results[i..]) else ret
      {
        assert results[i..][0] == results[i] && results[i..][1..] == results[i + 1..];
        ret := results[i];
        if ret >= 0 {
          publication := publication + [record];  // a position: the message was appended
        }
        if !Retry(ret) {
          return;
        }
        i := i + 1;
      }
    }

    /** The marker, every session in some order, and the closing marker; an offer that fails ends it with an error. When
        it reports success, what was published is a whole snapshot if and only if every record was offered at least once
        before its timeout. */
    method Take(core: Core, appVersion: int, attempts: nat -> seq<int>) returns (ok: bool, ghost order: seq<int>)
      modifies this
      ensures forall i | 0 <= i < |order| :: order[i] in core.sessions
      ensures ok <==> forall n | 0 <= n < |core.sessions| + 2 :: OfferResult(attempts(n)) >= 0
      ensures ok ==> IsOrder(order, core.sessions) && |order| == |core.sessions|
      ensures ok ==> (publication == old(publication) + SnapshotOf(core, appVersion, order)
                      <==> forall n | 0 <= n < |core.sessions| + 2 :: attempts(n) != [])
      ensures (forall n | 0 <= n < |core.sessions| + 2 :: attempts(n) == []) ==> publication == old(publication)
    {
      hide MarkerFor, SessionRecords, OfferResult;
      ghost var was := publication;
      order, ok := [], false;
      var ret := Offer(MarkerFor(core, Begin, appVersion), attempts(0));
      if ret < 0 {
        return;
      }
      var n := 1;
      var remaining := core.sessions.Keys;
      NoSessionsYet(core, appVersion, was, publication, attempts);
      while exists id :: id in remaining
        invariant remaining <= core.sessions.Keys && !ok && n == |order| + 1 && |order| + |remaining| == |core.sessions|
        invariant forall i | 0 <= i < |order| :: order[i] in core.sessions && order[i] !in remaining
        invariant forall id | id in core.sessions :: id in order || id in remaining
        invariant forall i, j | 0 <= i < j < |order| :: order[i] != order[j]
        invariant forall k | 0 <= k < n :: OfferResult(attempts(k)) >= 0
        invariant Published(core, appVersion, was, publication, order, attempts, n)
        decreases |remaining|
      {
        var id :| id in remaining;
        ret := Offer(SessionRecord(core.sessions[id]), attempts(n));
        if ret < 0 {
          return;
        }
        PublishedSession(core, appVersion, was, order, attempts, n, id, publication);
        order := order + [id];
        remaining := remaining - {id};
        n := n + 1;
      }
      assert remaining == {};
      ghost var before := publication;
      ret := Offer(MarkerFor(core, End, appVersion), attempts(n));
      ok := ret >= 0;
      if ok {
        PublishedEnd(core, appVersion, was, before, order, attempts, n, publication);
      }
    }
  }

  /** What `offer` returns: the first answer that is not retried, else the last one, and 0 when there is no time for
      any. */
  function OfferResult(results: seq<int>): (ret: int) {
    if results == [] then 0
    else if !Retry(results[0]) || |results| == 1 then results[0]
    else OfferResult(results[1..])
  }

  /** After the begin marker and some sessions: all is published if every one was attempted, none if none was. */
  ghost predicate Published(core: Core, appVersion: int, was: seq<Record>, publication: seq<Record>, order: seq<int>,
                            attempts: nat -> seq<int>, n: nat)
    requires forall i | 0 <= i < |order| :: order[i] in core.sessions
  {
    && ((forall k | 0 <= k < n :: attempts(k) != []) ==>
          publication == was + [MarkerFor(core, Begin, appVersion)] + SessionRecords(core.sessions, order))
    && ((forall k | 0 <= k < n :: attempts(k) == []) ==> publication == was)
    && ((exists k | 0 <= k < n :: attempts(k) == []) ==> |publication| < |was| + n)
    && |publication| <= |was| + n
  }

  lemma NoSessionsYet(core: Core, appVersion: int, was: seq<Record>, publication: seq<Record>,
                      attempts: nat -> seq<int>)
    requires publication == was + (if attempts(0) != [] then [MarkerFor(core, Begin, appVersion)] else [])
    ensures Published(core, appVersion, was, publication, [], attempts, 1)
  {
    hide MarkerFor;
    assert SessionRecords(core.sessions, []) == [];
  }

  lemma PublishedSession(core: Core, appVersion: int, was: seq<Record>, order: seq<int>, attempts: nat -> seq<int>,
                         n: nat, id: int, after: seq<Record>)
    requires (forall i | 0 <= i < |order| :: order[i] in core.sessions) && id in core.sessions
    requires exists before :: Published(core, appVersion, was, before, order, attempts, n)
               && after == before + (if attempts(n) != [] then [SessionRecord(core.sessions[id])] else [])
    ensures Published(core, appVersion, was, after, order + [id], attempts, n + 1)
  {
    hide MarkerFor, SessionRecords;
    OneMoreSession(core.sessions, order, id);
  }

  lemma PublishedEnd(core: Core, appVersion: int, was: seq<Record>, before: seq<Record>, order: seq<int>,
                     attempts: nat -> seq<int>, n: nat, after: seq<Record>)
    requires (forall i | 0 <= i < |order| :: order[i] in core.sessions) && n == |order| + 1
    requires Published(core, appVersion, was, before, order, attempts, n)
    requires after == before + (if attempts(n) != [] then [MarkerFor(core, End, appVersion)] else [])
    ensures after == was + SnapshotOf(core, appVersion, order) <==> forall k | 0 <= k < n + 1 :: attempts(k) != []
    ensures (forall k | 0 <= k < n + 1 :: attempts(k) == []) ==> after == was
  {
    hide MarkerFor;
  }

  /** A timeout that leaves no time for a single attempt: success is reported, and nothing was published. */
  method SuccessWithoutSnapshot(core: Core, appVersion: int) returns (taker: SnapshotTaker, ok: bool)
    ensures ok && taker.publication == []
  {
    taker := new SnapshotTaker();
    ghost var order;
    ok, order := taker.Take(core, appVersion, _ => []);
  }

  // ---------------------------------------------------------------------------------------------
  // Loading
  // ---------------------------------------------------------------------------------------------

  datatype Loader = Loader(isDone: bool, inSnapshot: bool, appVersion: int, timeUnit: TimeUnit, err: bool,
                           sessions: map<int, Session>)

  function FreshLoader(): (l: Loader) {
    Loader(false, false, 0, Millis, false, map[])
  }

  function Failed(l: Loader): (l': Loader) {
    l.(err := true, isDone := true)
  }

  /** `snapshotLoader.onFragment`. */
  function LoadRecord(connects: Session -> bool, l: Loader, r: Record): (l': Loader) {
    match r
    case Ignored => l
    case Undecodable => Failed(l)
    case SessionRecord(s) =>
      if connects(s) then l.(sessions := l.sessions[s.id := s]) else Failed(l)
    case Marker(typeId, _, _, mark, timeUnit, appVersion) =>
      if typeId != SNAPSHOT_TYPE_ID then l.(err := true)
      else match mark
        case Begin =>
          if l.inSnapshot then Failed(l) else l.(inSnapshot := true, appVersion := appVersion, timeUnit := timeUnit)
        case End => if !l.inSnapshot then Failed(l) else l.(inSnapshot := false, isDone := true)
        case Section => Failed(l)
  }

  /** Polling one fragment at a time until the loader is done; the second result is where the image is left. */
  function Load(connects: Session -> bool, l: Loader, rs: seq<Record>, at: nat): (r: (Loader, nat))
    requires at <= |rs|
    decreases |rs| - at
  {
    if l.isDone || at == |rs| then (l, at) else Load(connects, LoadRecord(connects, l, rs[at]), rs, at + 1)
  }

  class SnapshotLoader {
    var isDone: bool
    var inSnapshot: bool
    var appVersion: int
    var timeUnit: TimeUnit
    var err: bool
    var sessions: map<int, Session>  // the agent's table, which the loader fills

    ghost function View(): (l: Loader)
      reads this
    {
      Loader(isDone, inSnapshot, appVersion, timeUnit, err, sessions)
    }

    constructor ()
      ensures View() == FreshLoader()
    {
      isDone, inSnapshot, appVersion, timeUnit, err, sessions := false, false, 0, Millis, false, map[];
    }

    method OnFragment(connects: Session -> bool, r: Record)
      modifies this
      ensures View() == LoadRecord(connects, old(View()), r)
    {
      match r {
        case Ignored =>
        case Undecodable =>
          err := true;
          isDone := true;
        case SessionRecord(s) =>
          if connects(s) {
            sessions := sessions[s.id := s];
          } else {
            err := true;
            isDone := true;
          }
        case Marker(typeId, _, _, mark, unit, version) =>
          if typeId != SNAPSHOT_TYPE_ID {
            err := true;
          } else if mark.Begin? && !inSnapshot {
            inSnapshot := true;
            appVersion := version;
            timeUnit := unit;
          } else if mark.End? && inSnapshot {
            inSnapshot := false;
            isDone := true;
          } else {
            err := true;
            isDone := true;
          }
      }
    }

    /** The loop of `loadSnapshot`, over the fragments the image delivers. */
    method LoadAll(connects: Session -> bool, rs: seq<Record>) returns (at: nat)
      modifies this
      ensures at <= |rs| && (View(), at) == Load(connects, old(View()), rs, 0)
    {
      at := 0;
      while !isDone && at < |rs|
        invariant at <= |rs|
        invariant Load(connects, View(), rs, at) == Load(connects, old(View()), rs, 0)
        decreases |rs| - at
      {
        OnFragment(connects, rs[at]);
        at := at + 1;
      }
    }
  }
}

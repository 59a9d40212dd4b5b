/** The bounded log adapter (cluster/bounded_log_adapter.go) and the duty cycle that drives it
    (cluster/clustered_service_agent.go:358-374): nothing beyond the commit position reaches the agent. */
module LogAdapter {
  import opened Bits
  import opened LogFrames
  import opened Positions
  import opened Image
  import opened ImageProof
  import opened ClusterAgent
  import opened ExactlyOnce
  import opened LogLayout
  import opened Recovery

  const SBE_HEADER_LENGTH: int := 8

  /** What the image knows about its log: enough to compute `Header.Position` of a frame. */
  datatype Where = Where(initialTermId: int, bits: nat)

  /** A whole message and the position `Header.Position` gave for its last frame. */
  datatype Message = Message(payload: seq<byte>, position: int)

  /** The single byte builder, nil and empty being alike to the code, and the messages passed to `onMessage` so far. */
  datatype Assembly = Assembly(builder: seq<byte>, messages: seq<Message>)

  datatype Adapter = Adapter(asm: Assembly, agent: Agent)

  datatype Decoded = Undecodable | Event(e: LogEvent)

  /** The decoders for the cluster schema. */
  type Decoder = seq<byte> -> Decoded

  // ---------------------------------------------------------------------------------------------
  // The adapter
  // ---------------------------------------------------------------------------------------------

  /** `onFragment`, as far as messages go. */
  function Assemble(w: Where, s: Assembly, f: Frame): (s': Assembly) {
    var position := PositionOfFrame(w.initialTermId, w.bits, f);
    if f.begin && f.end then s.(messages := s.messages + [Message(f.payload, position)])
    else if f.begin then s.(builder := f.payload)
    else if s.builder == [] then s
    else if f.end then Assembly([], s.messages + [Message(s.builder + f.payload, position)])
    else s.(builder := s.builder + f.payload)
  }

  function Assembling(w: Where): (handler: FragmentHandler<Assembly>) {
    (s, f) => Assemble(w, s, f)
  }

  /** Four kinds of event are given the header's position; the others carry their own. */
  predicate GivenPosition(e: LogEvent) {
    e.TimerEvent? || e.SessionOpened? || e.SessionClosed? || e.SessionMessage?
  }

  function Stamped(e: LogEvent, position: int): (e': LogEvent) {
    match e
    case TimerEvent(_, id, t) => TimerEvent(position, id, t)
    case SessionOpened(_, session, t) => SessionOpened(position, session, t)
    case SessionClosed(_, id, t, reason) => SessionClosed(position, id, t, reason)
    case SessionMessage(_, id, t, payload) => SessionMessage(position, id, t, payload)
    case _ => e
  }

  /** The event `onMessage` hands to the agent, if any. */
  function EventsOf(decode: Decoder, m: Message): (es: seq<LogEvent>)
    ensures |es| <= 1
  {
    if |m.payload| < SBE_HEADER_LENGTH then []
    else match decode(m.payload)
      case Undecodable => []
      case Event(e) => [Stamped(e, m.position)]
  }

  function AllEvents(decode: Decoder, ms: seq<Message>): (es: seq<LogEvent>) {
    if ms == [] then [] else AllEvents(decode, ms[..|ms| - 1]) + EventsOf(decode, ms[|ms| - 1])
  }

  /** `onFragment`, with what `onMessage` does to the agent. */
  function Handle(env: Env, decode: Decoder, w: Where, s: Adapter, f: Frame): (s': Adapter) {
    var asm := Assemble(w, s.asm, f);
    Adapter(asm, if |asm.messages| > |s.asm.messages|
                 then Replay(env, s.agent, EventsOf(decode, asm.messages[|asm.messages| - 1])) else s.agent)
  }

  function Handling(env: Env, decode: Decoder, w: Where): (handler: FragmentHandler<Adapter>) {
    (s, f) => Handle(env, decode, w, s, f)
  }

  class BoundedLogAdapter {
    var builder: seq<byte>
    var agent: Agent
    ghost var messages: seq<Message>

    ghost function View(): (s: Adapter)
      reads this
    {
      Adapter(Assembly(builder, messages), agent)
    }

    constructor (agent: Agent)
      ensures View() == Adapter(Assembly([], []), agent)
    {
      this.builder, this.agent, this.messages := [], agent, [];
    }

    method OnMessage(env: Env, decode: Decoder, payload: seq<byte>, position: int)
      modifies this`agent, this`messages
      ensures messages == old(messages) + [Message(payload, position)]
      ensures agent == Replay(env, old(agent), EventsOf(decode, Message(payload, position)))
    {
      hide Deliver, Stamped;
      messages := messages + [Message(payload, position)];
      if |payload| < SBE_HEADER_LENGTH {
        return;
      }
      match decode(payload) {
        case Undecodable =>
        case Event(e) =>
          ghost var es := [Stamped(e, position)];
          assert es[..0] == [] && Replay(env, agent, es[..0]) == agent;
          if !agent.crashed {
            agent := Deliver(env, agent, Stamped(e, position));
          }
      }
    }

    method OnFragment(env: Env, decode: Decoder, w: Where, f: Frame)
      modifies this
      ensures View() == Handle(env, decode, w, old(View()), f)
    {
      hide Replay, EventsOf;
      var position := PositionOfFrame(w.initialTermId, w.bits, f);
      if f.begin && f.end {
        OnMessage(env, decode, f.payload, position);
      } else if f.begin {
        builder := [];
        builder := builder + f.payload;
      } else if |builder| != 0 {
        builder := builder + f.payload;
        if f.end {
          OnMessage(env, decode, builder, position);
          builder := [];
        }
      }
    }
  }

  /** The agent is where replaying the events of the messages takes it. */
  ghost predicate Replayed(env: Env, decode: Decoder, first: Agent, s: Adapter) {
    s.agent == Replay(env, first, AllEvents(decode, s.asm.messages))
  }

  lemma HandleReplays(env: Env, decode: Decoder, w: Where, first: Agent, s: Adapter, f: Frame)
    requires Replayed(env, decode, first, s)
    ensures Replayed(env, decode, first, Handle(env, decode, w, s, f))
  {
    hide Replay, EventsOf;
    var s' := Handle(env, decode, w, s, f);
    if |s'.asm.messages| > |s.asm.messages| {
      var m := s'.asm.messages[|s'.asm.messages| - 1];
      assert s'.asm.messages[..|s'.asm.messages| - 1] == s.asm.messages;
      ReplayMore(env, first, AllEvents(decode, s.asm.messages), EventsOf(decode, m));
    } else {
      assert s'.asm.messages == s.asm.messages;
    }
  }

  lemma ReplayMore(env: Env, a: Agent, es: seq<LogEvent>, more: seq<LogEvent>)
    ensures Replay(env, a, es + more) == Replay(env, Replay(env, a, es), more)
  {
    hide Replay;
    ReplaySplits(env, a, es + more, |es|);
    assert (es + more)[..|es|] == es && (es + more)[|es|..] == more;
  }

  lemma {:induction false} FoldReplays(env: Env, decode: Decoder, w: Where, first: Agent, s: Adapter, fs: seq<Frame>)
    requires Replayed(env, decode, first, s)
    ensures Replayed(env, decode, first, Fold(Handling(env, decode, w), s, fs))
    ensures Fold(Handling(env, decode, w), s, fs).asm == Fold(Assembling(w), s.asm, fs)
    decreases |fs|
  {
    hide Assemble, Replayed;
    if fs != [] {
      var last := |fs| - 1;
      FoldReplays(env, decode, w, first, s, fs[..last]);
      HandleReplays(env, decode, w, first, Fold(Handling(env, decode, w), s, fs[..last]), fs[last]);
    }
  }

  // ---------------------------------------------------------------------------------------------
  // Duty cycles
  // ---------------------------------------------------------------------------------------------

  /** How far the image has been consumed. */
  datatype Reader = Reader(next: nat, asm: Assembly)

  /** One duty cycle: the commit position it read, how much of the log was visible in the term, the fragment limit. */
  datatype Duty = Duty(commit: int, hi: nat, limit: int)

  ghost predicate Polled(window: seq<Frame>, position: int, termLength: int, w: Where, d: Duty, asm: Assembly, n: nat,
                         asm': Assembly)
    requires termLength > 0
  {
    var offset := SubscriberOffset(position, termLength);
    && n <= |window|
    && ReadOutcome(window, LimitOffset(d.commit, position, offset, termLength) - offset, d.limit, Assembling(w), asm, n,
                   asm', |DataFrames(window[..n])|)
  }

  ghost function WhereOf(st: Stream): (w: Where) {
    Where(st.config.initialTermId, st.bits)
  }

  ghost predicate Cycle(st: Stream, s: Reader, d: Duty, s': Reader) {
    && s.next <= d.hi <= |st.log| && s.next <= s'.next <= d.hi
    && Polled(st.log[s.next..d.hi], PositionAt(st, s.next), TermLength(st), WhereOf(st), d, s.asm, s'.next - s.next,
              s'.asm)
  }

  /** The commit counter holds a frame boundary, or is ahead of what has been received, and lags by at most 2^31. */
  ghost predicate ProperCommit(st: Stream, s: Reader, d: Duty) {
    && s.next <= |st.log| && d.commit - PositionAt(st, s.next) >= -TWO_31
    && (d.commit >= PositionAt(st, |st.log|) || exists m: nat :: m <= |st.log| && d.commit == PositionAt(st, m))
  }

  ghost predicate IsDutyRun(st: Stream, states: seq<Reader>, duties: seq<Duty>) {
    && |states| == |duties| + 1 && states[0] == Reader(0, Assembly([], []))
    && forall k {:trigger duties[k]} | 0 <= k < |duties| ::
         Cycle(st, states[k], duties[k], states[k + 1]) && ProperCommit(st, states[k], duties[k])
  }

  // ---------------------------------------------------------------------------------------------
  // Positions of what is handed over
  // ---------------------------------------------------------------------------------------------

  ghost predicate AllUpTo(ms: seq<Message>, p: int) {
    forall m | m in ms :: m.position <= p
  }

  /** Frames whose positions do not pass p only add messages whose positions do not pass p. */
  lemma {:induction false} FoldStaysBelow(w: Where, s: Assembly, fs: seq<Frame>, p: int) returns (more: seq<Message>)
    requires forall i | 0 <= i < |fs| :: PositionOfFrame(w.initialTermId, w.bits, fs[i]) <= p
    ensures Fold(Assembling(w), s, fs).messages == s.messages + more && AllUpTo(more, p)
    decreases |fs|
  {
    hide PositionOfFrame;
    more := [];
    if fs != [] {
      var last := |fs| - 1;
      more := FoldStaysBelow(w, s, fs[..last], p);
      var s1, s2 := Fold(Assembling(w), s, fs[..last]), Fold(Assembling(w), s, fs);
      if s2.messages != s1.messages {
        more := more + [s2.messages[|s1.messages|]];
      }
    }
  }

  lemma BoundaryInWindow(st: Stream, s: Reader, d: Duty)
    requires LaidOut(st) && ProperCommit(st, s, d) && s.next <= d.hi <= |st.log|
    ensures OnBoundary(st.log[s.next..d.hi], d.commit - PositionAt(st, s.next))
  {
    hide AlignedSum, LaidOut;
    var window, lo, hi := st.log[s.next..d.hi], s.next, d.hi;
    ResumesAt(st, lo, hi, hi - lo);
    assert window[..hi - lo] == window;
    if d.commit >= PositionAt(st, |st.log|) {
      PositionsAscend(st, hi, |st.log|);
    } else {
      var m: nat :| m <= |st.log| && d.commit == PositionAt(st, m);
      if m <= lo {
        PositionsAscend(st, m, lo);
      } else if m >= hi {
        PositionsAscend(st, hi, m);
      } else {
        ResumesAt(st, lo, hi, m - lo);
      }
    }
  }

  lemma WindowPositive(st: Stream, lo: nat, hi: nat)
    requires LaidOut(st) && lo <= hi <= |st.log|
    ensures AllPositive(st.log[lo..hi])
  {
    hide LaidOut, Aligned;
    LogPositive(st);
  }

  /** One duty cycle hands over only messages that end at or below the commit position it read, and it consumes the
      log in order, whatever the narrowing of the distance to 32 bits does. */
  lemma CycleIsBounded(st: Stream, s: Reader, d: Duty, s': Reader) returns (more: seq<Message>)
    requires LaidOut(st) && Cycle(st, s, d, s') && ProperCommit(st, s, d)
    ensures s'.asm.messages == s.asm.messages + more && AllUpTo(more, d.commit)
    ensures s'.asm == Fold(Assembling(WhereOf(st)), s.asm, st.log[s.next..s'.next])
  {
    hide AlignedSum, Assembling, DataFrames, LimitOffset, LaidOut, OnBoundary, ProperCommit, AllUpTo, PositionOfFrame,
         SubscriberOffset, AllPositive, Pow2;
    var w, lo, position, window := WhereOf(st), s.next, PositionAt(st, s.next), st.log[s.next..d.hi];
    var offset, n: nat := SubscriberOffset(position, TermLength(st)), s'.next - lo;
    var read := |DataFrames(window[..n])|;
    BoundaryInWindow(st, s, d);
    WindowPositive(st, lo, d.hi);
    LagOf(st, s, d);
    OffsetInTerm(st, position);
    CommitBound(window, d.commit, position, offset, TermLength(st), d.limit, Assembling(w), s.asm, n, s'.asm, read);
    assert window[..n] == st.log[lo..s'.next];
    forall i | 0 <= i < n
      ensures PositionOfFrame(w.initialTermId, w.bits, window[..n][i]) <= d.commit
    {
      HeaderGivesNextPosition(st, lo + i);
      ResumesAt(st, lo, d.hi, i + 1);
      assert position + AlignedSum(window[..i + 1]) <= d.commit;
    }
    more := FoldStaysBelow(w, s.asm, window[..n], d.commit);
  }

  lemma OffsetInTerm(st: Stream, position: int)
    requires LaidOut(st)
    ensures 0 <= SubscriberOffset(position, TermLength(st)) < TermLength(st) <= 0x4000_0000
  {
    hide Pow2;
    LayoutFacts(st);
    TermLengthFacts(st);
  }

  /** What a cycle handed over ends at or below the commit position it read. */
  ghost predicate AddsCommitted(s: Reader, d: Duty, s': Reader) {
    s.asm.messages <= s'.asm.messages && AllUpTo(s'.asm.messages[|s.asm.messages|..], d.commit)
  }

  lemma CycleAddsCommitted(st: Stream, s: Reader, d: Duty, s': Reader)
    requires LaidOut(st) && Cycle(st, s, d, s') && ProperCommit(st, s, d)
    ensures AddsCommitted(s, d, s')
  {
    hide Cycle, ProperCommit, LaidOut, AllUpTo, Assembling;
    var more := CycleIsBounded(st, s, d, s');
    assert s'.asm.messages[|s.asm.messages|..] == more;
  }

  lemma LagOf(st: Stream, s: Reader, d: Duty)
    requires ProperCommit(st, s, d)
    ensures d.commit - PositionAt(st, s.next) >= -TWO_31
  {
  }

  lemma {:induction false} FoldConcat<H>(handler: FragmentHandler<H>, s: H, a: seq<Frame>, b: seq<Frame>)
    ensures Fold(handler, s, a + b) == Fold(handler, Fold(handler, s, a), b)
    decreases |b|
  {
    if b == [] {
      assert a + b == a;
    } else {
      var last := |b| - 1;
      assert (a + b)[..|a + b| - 1] == a + b[..last];
      FoldConcat(handler, s, a, b[..last]);
    }
  }

  /** Over every run the adapter is where feeding it the consumed prefix in one go would take it: how the log was cut
      into polls, and what the commit position was at each, leaves no trace. */
  lemma {:induction false} RunConsumesInOrder(st: Stream, states: seq<Reader>,
                                              duties: seq<Duty>, k: nat)
    requires LaidOut(st) && IsDutyRun(st, states, duties) && k <= |duties|
    ensures states[k].next <= |st.log|
    ensures states[k].asm == Fold(Assembling(WhereOf(st)), Assembly([], []), st.log[..states[k].next])
  {
    hide Assembling, Cycle, ProperCommit, LaidOut;
    if k > 0 {
      RunConsumesInOrder(st, states, duties, k - 1);
      var s, s' := states[k - 1], states[k];
      assert Cycle(st, s, duties[k - 1], s');
      CycleMoves(st, s, duties[k - 1], s');
      var more := CycleIsBounded(st, s, duties[k - 1], s');
      FoldConcat(Assembling(WhereOf(st)), Assembly([], []), st.log[..s.next], st.log[s.next..s'.next]);
      PrefixGrows(st.log, s.next, s'.next);
    }
  }

  lemma PrefixGrows(log: seq<Frame>, a: nat, b: nat)
    requires a <= b <= |log|
    ensures log[..b] == log[..a] + log[a..b]
  {
  }

  lemma CycleMoves(st: Stream, s: Reader, d: Duty, s': Reader)
    requires Cycle(st, s, d, s')
    ensures s.next <= s'.next <= |st.log|
  {
  }

  // ---------------------------------------------------------------------------------------------
  // What reaches the agent
  // ---------------------------------------------------------------------------------------------

  function PayloadsIn(ms: seq<Message>): (ps: seq<seq<byte>>)
    ensures |ps| == |ms| && forall i | 0 <= i < |ms| :: ps[i] == ms[i].payload
  {
    seq(|ms|, i requires 0 <= i < |ms| => ms[i].payload)
  }

  /** The single builder behaves as the per-session one does for a log of one session. */
  lemma {:induction false} AssemblesLikeOneSession(w: Where, log: seq<Frame>)
    ensures var (b, out) := SessionFeed(DataFrames(log));
            var s := Fold(Assembling(w), Assembly([], []), log);
            s.builder == b && PayloadsIn(s.messages) == out
    decreases |log|
  {
    if log != [] {
      hide Assemble, SessionStep, DataFrames, PayloadsIn;
      var last := |log| - 1;
      AssemblesLikeOneSession(w, log[..last]);
      TakeOneMore(log, last);
      assert log[..last + 1] == log;
      if !log[last].padding {
        var ds := DataFrames(log);
        assert ds[..|ds| - 1] == DataFrames(log[..last]) && ds[|ds| - 1] == log[last];
        var s := Fold(Assembling(w), Assembly([], []), log[..last]);
        StepLikeOneSession(w, s, log[last]);
      } else {
        assert DataFrames(log) == DataFrames(log[..last]);
      }
    }
  }

  lemma StepLikeOneSession(w: Where, s: Assembly, f: Frame)
    ensures var s' := Assemble(w, s, f);
            (s'.builder, PayloadsIn(s'.messages)) == SessionStep(s.builder, PayloadsIn(s.messages), f)
  {
    hide PositionOfFrame;
    var position, b := PositionOfFrame(w.initialTermId, w.bits, f), s.builder + f.payload;
    assert PayloadsIn(s.messages + [Message(f.payload, position)]) == PayloadsIn(s.messages) + [f.payload];
    assert PayloadsIn(s.messages + [Message(b, position)]) == PayloadsIn(s.messages) + [b];
  }

  /** Commit bound over every run: what the agent has been handed after any number of duty cycles is exactly the
      messages the consumed frames hold, whole and in log order, and each cycle added only messages that end at or
      below the commit position it read. */
  lemma OnlyCommittedMessagesInOrder(st: Stream, states: seq<Reader>, duties: seq<Duty>,
                                     k: nat, ms: seq<Chunks>) returns (c: nat, i: nat)
    requires LaidOut(st) && IsDutyRun(st, states, duties) && k <= |duties|
    requires Published(DataFrames(st.log), ms)
    ensures states[k].next <= |st.log| && c <= |ms| && HoldsExactly(DataFrames(st.log[..states[k].next]), ms, c, i)
    ensures PayloadsIn(states[k].asm.messages) == Payloads(Deliverable(ms[..c]))
    ensures forall j {:trigger duties[j]} | 0 <= j < |duties| ::
              AddsCommitted(states[j], duties[j], states[j + 1])
  {
    hide Assembling, Cycle, ProperCommit, LaidOut, HoldsExactly, SessionFeed, AddsCommitted;
    RunConsumesInOrder(st, states, duties, k);
    var n, log := states[k].next, st.log;
    assert log == log[..n] + log[n..];
    DataFramesConcat(log[..n], log[n..]);
    var all, got := DataFrames(log), DataFrames(log[..n]);
    assert all[..|got|] == got;
    PrefixPublished(all, ms, |got|);
    c, i :| HoldsExactly(got, ms, c, i);
    HoldsBounds(got, ms, c, i);
    WholeMessagesInOrder(got, ms, c, i);
    AssemblesLikeOneSession(WhereOf(st), log[..n]);
    forall j {:trigger duties[j]} | 0 <= j < |duties|
      ensures AddsCommitted(states[j], duties[j], states[j + 1])
    {
      CycleAddsCommitted(st, states[j], duties[j], states[j + 1]);
    }
  }

  /** The position an event leaves the agent at. */
  function PositionOf(e: LogEvent): (p: int) {
    match e
    case TimerEvent(p, _, _) => p
    case SessionOpened(p, _, _) => p
    case SessionClosed(p, _, _, _) => p
    case SessionMessage(p, _, _, _) => p
    case NewLeadershipTerm(_, p, _, _, _) => p
    case ServiceAction(p, _, _, _) => p
    case MembershipChange(p, _, _, _) => p
  }

  /** A new term of another major version makes the container panic before it takes the position. */
  predicate Moves(env: Env, e: LogEvent) {
    !(e.NewLeadershipTerm? && VersionMajor(env.appVersion) != VersionMajor(e.appVersion))
  }

  lemma DeliverMovesTo(env: Env, a: Agent, e: LogEvent)
    ensures Deliver(env, a, e).core.logPosition == if Moves(env, e) then PositionOf(e) else a.core.logPosition
  {
  }

  /** The events the agent takes a position from that the adapter did not give them stay within p. */
  ghost predicate OwnPositionsWithin(env: Env, a: Agent, es: seq<LogEvent>, p: int) {
    forall k | 0 <= k < |es| && !Replay(env, a, es[..k]).crashed && !GivenPosition(es[k]) && Moves(env, es[k]) ::
      PositionOf(es[k]) <= p
  }

  ghost predicate GivenWithin(es: seq<LogEvent>, p: int) {
    forall e | e in es && GivenPosition(e) :: PositionOf(e) <= p
  }

  ghost predicate StaysWithin(env: Env, a: Agent, es: seq<LogEvent>, p: int) {
    forall k | 0 <= k <= |es| :: Replay(env, a, es[..k]).core.logPosition <= p
  }

  lemma OneStep(env: Env, a: Agent, es: seq<LogEvent>, k: nat)
    requires k < |es|
    ensures var a1, a2 := Replay(env, a, es[..k]), Replay(env, a, es[..k + 1]);
            a2.core.logPosition == if !a1.crashed && Moves(env, es[k]) then PositionOf(es[k]) else a1.core.logPosition
  {
    hide Deliver, PositionOf, Moves;
    assert es[..k + 1][..k] == es[..k];
    DeliverMovesTo(env, Replay(env, a, es[..k]), es[k]);
  }

  lemma {:induction false} PrefixStays(env: Env, a: Agent, es: seq<LogEvent>, p: int, k: nat)
    requires a.core.logPosition <= p && GivenWithin(es, p) && OwnPositionsWithin(env, a, es, p) && k <= |es|
    ensures Replay(env, a, es[..k]).core.logPosition <= p
  {
    if k > 0 {
      hide Replay, PositionOf, Moves;
      PrefixStays(env, a, es, p, k - 1);
      OneStep(env, a, es, k - 1);
      assert es[k - 1] in es;
    } else {
      assert es[..0] == [];
    }
  }

  lemma {:induction false} EventsGivenWithin(decode: Decoder, ms: seq<Message>, p: int)
    requires AllUpTo(ms, p)
    ensures GivenWithin(AllEvents(decode, ms), p)
  {
    if ms != [] {
      var last := |ms| - 1;
      assert ms[last] in ms;
      EventsGivenWithin(decode, ms[..last], p);
    }
  }

  /** While the messages handed over stay within a position, so does the agent's own log position, if and only if the
      positions that leadership, action and membership events carry themselves do. */
  lemma AgentStaysWithinIff(env: Env, decode: Decoder, a: Agent, ms: seq<Message>, p: int)
    requires a.core.logPosition <= p && AllUpTo(ms, p)
    ensures var es := AllEvents(decode, ms); StaysWithin(env, a, es, p) <==> OwnPositionsWithin(env, a, es, p)
  {
    hide Replay, PositionOf, Moves, GivenPosition, AllEvents;
    var es := AllEvents(decode, ms);
    EventsGivenWithin(decode, ms, p);
    if OwnPositionsWithin(env, a, es, p) {
      forall k | 0 <= k <= |es| ensures Replay(env, a, es[..k]).core.logPosition <= p { PrefixStays(env, a, es, p, k); }
    }
    if StaysWithin(env, a, es, p) {
      forall k | 0 <= k < |es| && !Replay(env, a, es[..k]).crashed && !GivenPosition(es[k]) && Moves(env, es[k])
        ensures PositionOf(es[k]) <= p
      {
        OneStep(env, a, es, k);
        assert Replay(env, a, es[..k + 1]).core.logPosition <= p;
      }
    }
  }

  /** Whatever message decodes to an event naming a position beyond the message's own end takes the agent there. */
  lemma OwnPositionPasses(env: Env, decode: Decoder, a: Agent, payload: seq<byte>, p: int, e: LogEvent)
    requires !a.crashed && |payload| >= SBE_HEADER_LENGTH && decode(payload) == Event(e)
    requires !GivenPosition(e) && Moves(env, e) && PositionOf(e) > p
    ensures var ms := [Message(payload, p)];
            AllUpTo(ms, p) && Replay(env, a, AllEvents(decode, ms)).core.logPosition == PositionOf(e) > p
  {
    hide Deliver, PositionOf, Moves, GivenPosition, Stamped, Replay;
    var m, es := Message(payload, p), [e];
    OwnIsNotStamped(e, p);
    assert [m][..0] == [] && AllEvents(decode, [m]) == es;
    assert es[..1] == es;
    OneStep(env, a, es, 0);
    NothingToReplay(env, a, es);
  }

  lemma OwnIsNotStamped(e: LogEvent, p: int)
    requires !GivenPosition(e)
    ensures Stamped(e, p) == e
  {
  }

  lemma NothingToReplay(env: Env, a: Agent, es: seq<LogEvent>)
    ensures Replay(env, a, es[..0]) == a
  {
  }

  // ---------------------------------------------------------------------------------------------
  // The container's log, as an object
  // ---------------------------------------------------------------------------------------------

  /** Projecting the agent away from what a poll did. */
  lemma ReadProjects(env: Env, decode: Decoder, w: Where, first: Agent, fs: seq<Frame>, bound: int, limit: int,
                     s: Adapter, n: nat, s': Adapter, read: int)
    requires Replayed(env, decode, first, s) && ReadOutcome(fs, bound, limit, Handling(env, decode, w), s, n, s', read)
    ensures ReadOutcome(fs, bound, limit, Assembling(w), s.asm, n, s'.asm, read) && Replayed(env, decode, first, s')
    ensures n <= |fs| && read == |DataFrames(fs[..n])|
  {
    hide Handling, Assembling, Replayed, AlignedSum, DataFrames;
    FoldReplays(env, decode, w, first, s, fs[..n]);
  }

  lemma CycledOnce(st: Stream, states: seq<Reader>, duties: seq<Duty>, d: Duty, s': Reader)
    requires IsDutyRun(st, states, duties)
    requires Cycle(st, states[|duties|], d, s') && ProperCommit(st, states[|duties|], d)
    ensures IsDutyRun(st, states + [s'], duties + [d])
  {
    hide Cycle, ProperCommit;
    var more, ds := states + [s'], duties + [d];
    forall k {:trigger ds[k]} | 0 <= k < |ds|
      ensures Cycle(st, more[k], ds[k], more[k + 1]) && ProperCommit(st, more[k], ds[k])
    {
      if k < |duties| { assert ds[k] == duties[k]; }
    }
  }

  /** What a bounded poll of the frames in front amounts to. */
  lemma PollMakesCycle(env: Env, decode: Decoder, st: Stream, first: Agent, states: seq<Reader>, duties: seq<Duty>,
                       lo: nat, s: Adapter, d: Duty, n: nat, s': Adapter, read: int)
    requires LaidOut(st) && IsDutyRun(st, states, duties) && states[|duties|] == Reader(lo, s.asm)
    requires Replayed(env, decode, first, s) && lo <= d.hi <= |st.log| && ProperCommit(st, Reader(lo, s.asm), d)
    requires var p, T := PositionAt(st, lo), TermLength(st); var offset := SubscriberOffset(p, T);
             ReadOutcome(st.log[lo..d.hi], LimitOffset(d.commit, p, offset, T) - offset, d.limit,
                         Handling(env, decode, WhereOf(st)), s, n, s', read)
    ensures n <= d.hi - lo && IsDutyRun(st, states + [Reader(lo + n, s'.asm)], duties + [d])
    ensures Replayed(env, decode, first, s') && read == |DataFrames(st.log[lo..lo + n])|
    ensures PositionAt(st, lo) + AlignedSum(st.log[lo..d.hi][..n]) == PositionAt(st, lo + n)
    ensures 0 <= PositionAt(st, lo + n) && TermCount(PositionAt(st, lo + n), st.bits) < TWO_31
  {
    hide LaidOut, AlignedSum, ProperCommit, IsDutyRun, Replayed, ReadOutcome, Handling, Assembling, LimitOffset, Pow2,
         SubscriberOffset, DataFrames;
    var p, T, window := PositionAt(st, lo), TermLength(st), st.log[lo..d.hi];
    var offset := SubscriberOffset(p, T);
    ReadProjects(env, decode, WhereOf(st), first, window, LimitOffset(d.commit, p, offset, T) - offset, d.limit, s, n,
                 s', read);
    ResumesAt(st, lo, d.hi, n);
    assert window[..n] == st.log[lo..lo + n];
    CycledOnce(st, states, duties, d, Reader(lo + n, s'.asm));
  }

  class LogConsumer {
    const env: Env
    const decode: Decoder
    const where: Where
    const image: LogImage
    var adapter: Adapter
    ghost const stream: Stream
    ghost const first: Agent
    ghost var next: nat
    ghost var states: seq<Reader>
    ghost var duties: seq<Duty>

    /** By its byte position the image stands at the next frame of the log; the duty cycles so far are a run; the agent
        is where replaying the events of the messages takes it. */
    ghost predicate Valid()
      reads this, image
    {
      && InStep(image, stream, next) && where == WhereOf(stream)
      && IsDutyRun(stream, states, duties) && states[|duties|] == Reader(next, adapter.asm)
      && Replayed(env, decode, first, adapter)
    }

    constructor (env: Env, decode: Decoder, image: LogImage, where: Where, agent: Agent, ghost stream: Stream)
      requires InStep(image, stream, 0) && where == WhereOf(stream)
      ensures Valid() && this.stream == stream && this.image == image && adapter == Adapter(Assembly([], []), agent)
      ensures this.env == env && this.decode == decode && first == agent && next == 0
    {
      this.env, this.decode, this.image, this.where := env, decode, image, where;
      this.adapter := Adapter(Assembly([], []), agent);
      this.stream, this.first, this.next := stream, agent, 0;
      this.states, this.duties := [Reader(0, Assembly([], []))], [];
    }

    /** The polling half of `DoWork`, while the image's buffers show the log from where it stands up to hi. */
    method Poll(commitPosition: int, fragmentLimit: int, ghost hi: nat) returns (polled: int)
      requires Valid() && !image.isClosed && Shows(image.terms, stream, next, hi)
      requires ProperCommit(stream, Reader(next, adapter.asm), Duty(commitPosition, hi, fragmentLimit))
      modifies this, image
      ensures Valid() && old(next) <= next <= hi && duties == old(duties) + [Duty(commitPosition, hi, fragmentLimit)]
      ensures old(states) < states && polled == |DataFrames(stream.log[old(next)..next])|
    {
      hide LaidOut, Shows, Chain, Pow2, AlignedSum, ProperCommit, IsDutyRun, Replayed, ReadOutcome, Handling,
           LimitOffset, SubscriberOffset, DataFrames;
      AheadIsLog(image.terms, stream, next, hi);
      ShownUpTo(image.terms, stream, next, hi);
      assert image.Ahead() == stream.log[next..hi];
      var h;
      ghost var n;
      ghost var d := Duty(commitPosition, hi, fragmentLimit);
      polled, h, n := image.BoundedPoll(Handling(env, decode, where), adapter, commitPosition, fragmentLimit);
      PollMakesCycle(env, decode, stream, first, states, duties, next, adapter, d, n, h, polled);
      states, duties, next := states + [Reader(next + n, h.asm)], duties + [d], next + n;
      adapter := h;
      LastOfRun(stream, states, duties);
    }
  }

  lemma ShownUpTo(terms: seq<Term>, st: Stream, lo: nat, hi: nat)
    requires Shows(terms, st, lo, hi)
    ensures lo <= hi <= |st.log|
  {
  }

  lemma LastOfRun(st: Stream, states: seq<Reader>, duties: seq<Duty>)
    requires IsDutyRun(st, states, duties)
    ensures |states| == |duties| + 1
  {
  }

  /** At any time the agent is where replaying the events of exactly the deliverable messages below the image's byte
      position takes it, and every cycle so far handed over only what was committed when it read the counter. */
  lemma AgentSawExactlyCommitted(c: LogConsumer, ms: seq<Chunks>) returns (n: nat, i: nat)
    requires c.Valid() && Published(DataFrames(c.stream.log), ms)
    ensures c.next <= |c.stream.log| && c.image.subscriberPosition == PositionAt(c.stream, c.next)
    ensures n <= |ms| && HoldsExactly(DataFrames(c.stream.log[..c.next]), ms, n, i)
    ensures PayloadsIn(c.adapter.asm.messages) == Payloads(Deliverable(ms[..n]))
    ensures c.adapter.agent == Replay(c.env, c.first, AllEvents(c.decode, c.adapter.asm.messages))
    ensures |c.states| == |c.duties| + 1
    ensures forall j {:trigger c.duties[j]} | 0 <= j < |c.duties| ::
              AddsCommitted(c.states[j], c.duties[j], c.states[j + 1])
  {
    hide IsDutyRun, LaidOut, HoldsExactly, AddsCommitted, Payloads, Deliverable, AllEvents, Replay, PayloadsIn;
    LastOfRun(c.stream, c.states, c.duties);
    n, i := OnlyCommittedMessagesInOrder(c.stream, c.states, c.duties, |c.duties|, ms);
  }
}

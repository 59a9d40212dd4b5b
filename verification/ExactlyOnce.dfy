/** Polls of several images through one controlled assembler: every published message is accepted exactly once. */
module ExactlyOnce {
  import opened Bits
  import opened LogFrames
  import opened Image
  import opened Assembler

  // ---------------------------------------------------------------------------------------------
  // Runs of polls
  // ---------------------------------------------------------------------------------------------

  /** How far each image has been consumed, the frames consumed so far in order, and the assembler. */
  datatype State = State(next: seq<nat>, consumed: seq<Frame>, a: Controlled)

  /** One `ControlledPoll` of an image, which sees its log up to hi: that may be the end of a term or of what is
      published. */
  datatype Poll = Poll(image: nat, hi: nat, limit: int)

  ghost predicate PollStep(logs: seq<seq<Frame>>, answers: Answers, s: State, c: Poll, s': State) {
    && |s.next| == |logs| && c.image < |logs| && s.next[c.image] <= c.hi <= |logs[c.image]|
    && var window := logs[c.image][s.next[c.image]..c.hi];
       exists n: nat, read :: ControlledOutcome(window, c.limit, AsHandler(answers), s.a, n, s'.a, read)
                           && n <= |window|
                           && s'.next == s.next[c.image := s.next[c.image] + n]
                           && s'.consumed == s.consumed + window[..n]
  }

  ghost predicate IsRun(logs: seq<seq<Frame>>, answers: Answers, states: seq<State>, polls: seq<Poll>) {
    && |states| == |polls| + 1
    && states[0] == State(seq(|logs|, _ => 0), [], Controlled(map[], 0, []))
    && forall k {:trigger polls[k]} | 0 <= k < |polls| :: PollStep(logs, answers, states[k], polls[k], states[k + 1])
  }

  /** The frames of one session, without padding. */
  function OfSession(log: seq<Frame>, sid: int): (fs: seq<Frame>) {
    if log == [] then []
    else
      var last := |log| - 1;
      OfSession(log[..last], sid) + (if !log[last].padding && log[last].sessionId == sid then [log[last]] else [])
  }

  lemma {:induction false} OfSessionConcat(a: seq<Frame>, b: seq<Frame>, sid: int)
    ensures OfSession(a + b, sid) == OfSession(a, sid) + OfSession(b, sid)
    decreases |b|
  {
    if b == [] {
      assert a + b == a;
    } else {
      var last := |b| - 1;
      assert (a + b)[..|a + b| - 1] == a + b[..last];
      OfSessionConcat(a, b[..last], sid);
    }
  }

  lemma {:induction false} OfOtherSession(log: seq<Frame>, sid: int)
    requires forall f | f in log :: f.padding || f.sessionId != sid
    ensures OfSession(log, sid) == []
  {
    if log != [] {
      var last := |log| - 1;
      assert log[last] in log;
      OfOtherSession(log[..last], sid);
    }
  }

  ghost predicate Inv(logs: seq<seq<Frame>>, s: State, sid: int, j: nat)
    requires j < |logs|
  {
    && |s.next| == |logs| && (forall i | 0 <= i < |logs| :: s.next[i] <= |logs[i]|)
    && Agrees(s.a, s.consumed)
    && OfSession(s.consumed, sid) == OfSession(logs[j][..s.next[j]], sid)
  }

  /** Session sid is carried by image j only. */
  ghost predicate CarriedBy(logs: seq<seq<Frame>>, sid: int, j: nat) {
    forall i, f | 0 <= i < |logs| && i != j && f in logs[i] :: f.padding || f.sessionId != sid
  }

  lemma PollKeepsInv(logs: seq<seq<Frame>>, answers: Answers, s: State, c: Poll, s': State, sid: int, j: nat)
    requires j < |logs| && CarriedBy(logs, sid, j) && Inv(logs, s, sid, j) && PollStep(logs, answers, s, c, s')
    ensures Inv(logs, s', sid, j)
  {
    hide ControlledOutcome, Agrees, OfSession, AsHandler;
    var i := s.next[c.image];
    var window := logs[c.image][i..c.hi];
    var n: nat, read :| ControlledOutcome(window, c.limit, AsHandler(answers), s.a, n, s'.a, read)
                     && n <= |window| && s'.next == s.next[c.image := i + n] && s'.consumed == s.consumed + window[..n];
    var whole := s.consumed + window;
    assert whole[..|s.consumed|] == s.consumed && whole[|s.consumed|..|whole|] == window;
    PollAgrees(answers, s.a, whole, |s.consumed|, |whole|, c.limit, n, s'.a, read);
    assert whole[..|s.consumed| + n] == s'.consumed;
    OfSessionConcat(s.consumed, window[..n], sid);
    if c.image == j {
      assert logs[j][..i + n] == logs[j][..i] + window[..n];
      OfSessionConcat(logs[j][..i], window[..n], sid);
    } else {
      OfOtherSession(window[..n], sid);
    }
  }

  lemma {:induction false} RunKeepsInv(logs: seq<seq<Frame>>, answers: Answers, states: seq<State>, polls: seq<Poll>,
                                       k: nat, sid: int, j: nat)
    requires IsRun(logs, answers, states, polls) && k < |states| && j < |logs| && CarriedBy(logs, sid, j)
    ensures Inv(logs, states[k], sid, j)
  {
    hide PollStep, CarriedBy;
    if k > 0 {
      RunKeepsInv(logs, answers, states, polls, k - 1, sid, j);
      assert PollStep(logs, answers, states[k - 1], polls[k - 1], states[k]);
      PollKeepsInv(logs, answers, states[k - 1], polls[k - 1], states[k], sid, j);
    } else {
      assert logs[j][..0] == [];
    }
  }

  // ---------------------------------------------------------------------------------------------
  // One session on its own
  // ---------------------------------------------------------------------------------------------

  /** The payloads given to the delegate for one session. */
  function PayloadsOf(ds: seq<Delivery>, sid: int): (ps: seq<seq<byte>>) {
    if ds == [] then []
    else
      var last := |ds| - 1;
      PayloadsOf(ds[..last], sid) + (if ds[last].sessionId == sid then [ds[last].payload] else [])
  }

  /** What one frame of a session does to that session's builder and output. */
  function SessionStep(b: seq<byte>, out: seq<seq<byte>>, f: Frame): (r: (seq<byte>, seq<seq<byte>>)) {
    if f.begin && f.end then (b, out + [f.payload])
    else if f.begin then (f.payload, out)
    else if b == [] then (b, out)
    else if f.end then ([], out + [b + f.payload])
    else (b + f.payload, out)
  }

  function SessionFeed(fs: seq<Frame>): (r: (seq<byte>, seq<seq<byte>>)) {
    if fs == [] then ([], [])
    else
      var (b, out) := SessionFeed(fs[..|fs| - 1]);
      SessionStep(b, out, fs[|fs| - 1])
  }

  function BuilderOf(bs: Builders, sid: int): (b: seq<byte>) {
    if sid in bs then bs[sid] else []
  }

  lemma PayloadsOfOneMore(ds: seq<Delivery>, d: Delivery, sid: int)
    ensures PayloadsOf(ds + [d], sid) == PayloadsOf(ds, sid) + (if d.sessionId == sid then [d.payload] else [])
  {
    assert (ds + [d])[..|ds|] == ds;
  }

  /** A frame changes nothing for the other sessions. */
  lemma StepIsPerSession(bs: Builders, out: seq<Delivery>, f: Frame, sid: int)
    ensures var (bs', more) := PlainStep(bs, f);
            var mine := (BuilderOf(bs', sid), PayloadsOf(out + more, sid));
            mine == if f.sessionId == sid then SessionStep(BuilderOf(bs, sid), PayloadsOf(out, sid), f)
                    else (BuilderOf(bs, sid), PayloadsOf(out, sid))
  {
    hide PayloadsOf;
    var more := PlainStep(bs, f).1;
    assert out + [] == out && PayloadsOf(out, sid) + [] == PayloadsOf(out, sid);
    if more != [] {
      PayloadsOfOneMore(out, more[0], sid);
      assert out + more == out + [more[0]];
    }
  }

  /** Sessions do not disturb each other: the assembler's view of one session depends on its frames only. */
  lemma {:induction false} SessionsAreIndependent(log: seq<Frame>, sid: int)
    ensures BuilderOf(Feed(log).0, sid) == SessionFeed(OfSession(log, sid)).0
    ensures PayloadsOf(Feed(log).1, sid) == SessionFeed(OfSession(log, sid)).1
    decreases |log|
  {
    hide PlainStep, SessionStep, BuilderOf;
    if log == [] {
      NoBuilder(sid);
    } else {
      hide PayloadsOf;
      var last := |log| - 1;
      var f := log[last];
      SessionsAreIndependent(log[..last], sid);
      var (bs, out) := Feed(log[..last]);
      if !f.padding {
        StepIsPerSession(bs, out, f, sid);
        if f.sessionId == sid {
          assert OfSession(log, sid)[..|OfSession(log, sid)| - 1] == OfSession(log[..last], sid);
        } else {
          assert OfSession(log, sid) == OfSession(log[..last], sid);
        }
      } else {
        assert OfSession(log, sid) == OfSession(log[..last], sid);
      }
    }
  }

  lemma NoBuilder(sid: int)
    ensures BuilderOf(map[], sid) == []
  {
  }

  // ---------------------------------------------------------------------------------------------
  // Published messages
  // ---------------------------------------------------------------------------------------------

  /** A message as published: its payload cut into one or more chunks, the first one non-empty when there are more. */
  type Chunks = seq<seq<byte>>

  predicate ValidChunks(m: Chunks) {
    m != [] && (|m| > 1 ==> m[0] != [])
  }

  function Joined(m: Chunks): (p: seq<byte>) {
    if m == [] then [] else Joined(m[..|m| - 1]) + m[|m| - 1]
  }

  /** A frame carries chunk i of a message, with the flags the publisher sets. */
  predicate Carries(f: Frame, m: Chunks, i: nat)
    requires i < |m|
  {
    f.begin == (i == 0) && f.end == (i == |m| - 1) && f.payload == m[i]
  }

  /** fs holds the c messages ms[..c] and the first i chunks of ms[c]. */
  ghost predicate HoldsExactly(fs: seq<Frame>, ms: seq<Chunks>, c: nat, i: nat)
    decreases |fs|
  {
    && c <= |ms| && (i > 0 ==> c < |ms| && i < |ms[c]|)
    && if fs == [] then c == 0 && i == 0
       else
         var f, rest := fs[|fs| - 1], fs[..|fs| - 1];
         if i > 0 then Carries(f, ms[c], i - 1) && HoldsExactly(rest, ms, c, i - 1)
         else c > 0 && ms[c - 1] != [] && Carries(f, ms[c - 1], |ms[c - 1]| - 1)
              && HoldsExactly(rest, ms, c - 1, |ms[c - 1]| - 1)
  }

  /** The session's frames are what a publisher of ms has written so far. */
  ghost predicate Published(fs: seq<Frame>, ms: seq<Chunks>) {
    exists c: nat, i: nat :: HoldsExactly(fs, ms, c, i)
  }

  lemma {:induction false} PrefixPublished(fs: seq<Frame>, ms: seq<Chunks>, n: nat)
    requires Published(fs, ms) && n <= |fs|
    ensures Published(fs[..n], ms)
    decreases |fs|
  {
    if n == |fs| {
      assert fs[..n] == fs;
    } else {
      var c: nat, i: nat :| HoldsExactly(fs, ms, c, i);
      var rest := fs[..|fs| - 1];
      assert Published(rest, ms) by {
        assert if i > 0 then HoldsExactly(rest, ms, c, i - 1) else HoldsExactly(rest, ms, c - 1, |ms[c - 1]| - 1);
      }
      PrefixPublished(rest, ms, n);
      assert rest[..n] == fs[..n];
    }
  }

  function Payloads(ms: seq<Chunks>): (ps: seq<seq<byte>>) {
    if ms == [] then [] else Payloads(ms[..|ms| - 1]) + [Joined(ms[|ms| - 1])]
  }

  lemma {:induction false} JoinedNonEmpty(m: Chunks, i: nat)
    requires ValidChunks(m) && 0 < i < |m|
    ensures Joined(m[..i]) != []
    decreases i
  {
    assert m[..i][..i - 1] == m[..i - 1];
    if i > 1 {
      JoinedNonEmpty(m, i - 1);
    }
  }

  /** What the builder holds once the first i chunks of a longer message have been fed: nothing when the first is
      empty. */
  function Held(m: Chunks, i: nat): (b: seq<byte>)
    requires 0 < i < |m|
  {
    if m[0] == [] then [] else Joined(m[..i])
  }

  lemma HeldNonEmpty(m: Chunks, i: nat)
    requires 0 < i < |m|
    ensures Held(m, i) == [] <==> m[0] == []
  {
    hide Joined;
    if m[0] != [] {
      JoinedNonEmpty(m, i);
    }
  }

  /** The messages that can be delivered: one fragment, or a non-empty first one. */
  function Deliverable(ms: seq<Chunks>): (ds: seq<Chunks>) {
    if ms == [] then []
    else Deliverable(ms[..|ms| - 1]) + (if ValidChunks(ms[|ms| - 1]) then [ms[|ms| - 1]] else [])
  }

  /** The next chunk of a message, not its last, into the builder. */
  lemma FeedChunk(out: seq<seq<byte>>, b: seq<byte>, f: Frame, m: Chunks, i: nat)
    requires i + 1 < |m| && Carries(f, m, i) && (i > 0 ==> b == Held(m, i))
    ensures SessionStep(b, out, f) == (Held(m, i + 1), out)
  {
    hide Joined;
    if i > 0 {
      HeldNonEmpty(m, i);
      JoinedOneMore(m, i);
    } else {
      JoinedFirst(m);
    }
  }

  lemma JoinedOneMore(m: Chunks, i: nat)
    requires i < |m|
    ensures Joined(m[..i + 1]) == Joined(m[..i]) + m[i]
  {
    assert m[..i + 1][..i] == m[..i];
  }

  lemma JoinedFirst(m: Chunks)
    requires m != []
    ensures Joined(m[..1]) == m[0]
  {
    assert m[..1][..0] == [];
  }

  /** The last chunk: the message comes out, unless it cannot be delivered. */
  lemma FeedLastChunk(out: seq<seq<byte>>, b: seq<byte>, f: Frame, m: Chunks)
    requires m != [] && Carries(f, m, |m| - 1) && (|m| > 1 ==> b == Held(m, |m| - 1))
    ensures SessionStep(b, out, f)
         == (if |m| == 1 then b else [], out + (if ValidChunks(m) then [Joined(m)] else []))
  {
    hide Joined;
    var k := |m| - 1;
    JoinedOneMore(m, k);
    assert m[..k + 1] == m && out + [] == out;
    if k > 0 {
      HeldNonEmpty(m, k);
    } else {
      JoinedFirst(m);
    }
  }

  /** Feeding exactly c messages and i chunks gives the payloads of those of them that can be delivered, whole and in
      order, and leaves the i chunks. */
  lemma {:induction false} WholeMessagesInOrder(fs: seq<Frame>, ms: seq<Chunks>, c: nat, i: nat)
    requires HoldsExactly(fs, ms, c, i)
    ensures SessionFeed(fs).1 == Payloads(Deliverable(ms[..c]))
    ensures SessionFeed(fs).0 == if i > 0 then Held(ms[c], i) else []
    decreases |fs|
  {
    hide Joined, Held, SessionStep, Carries;
    if fs == [] {
    } else if i > 0 {
      WholeMessagesInOrder(fs[..|fs| - 1], ms, c, i - 1);
      FeedChunk(Payloads(Deliverable(ms[..c])), SessionFeed(fs[..|fs| - 1]).0, fs[|fs| - 1], ms[c], i - 1);
    } else {
      var m := ms[c - 1];
      WholeMessagesInOrder(fs[..|fs| - 1], ms, c - 1, |m| - 1);
      FeedLastChunk(Payloads(Deliverable(ms[..c - 1])), SessionFeed(fs[..|fs| - 1]).0, fs[|fs| - 1], m);
      OneMoreDeliverable(ms, c - 1);
    }
  }

  lemma OneMoreDeliverable(ms: seq<Chunks>, c: nat)
    requires c < |ms|
    ensures Payloads(Deliverable(ms[..c + 1]))
         == Payloads(Deliverable(ms[..c])) + (if ValidChunks(ms[c]) then [Joined(ms[c])] else [])
  {
    hide Joined;
    assert ms[..c + 1][..c] == ms[..c];
    var ds := Deliverable(ms[..c]);
    assert ds + [] == ds && Payloads(ds) + [] == Payloads(ds);
    assert (ds + [ms[c]])[..|ds|] == ds;
  }

  /** The builder and output of a session after more frames. */
  function SessionRun(b: seq<byte>, out: seq<seq<byte>>, fs: seq<Frame>): (r: (seq<byte>, seq<seq<byte>>))
    decreases |fs|
  {
    if fs == [] then (b, out)
    else
      var (b1, out1) := SessionRun(b, out, fs[..|fs| - 1]);
      SessionStep(b1, out1, fs[|fs| - 1])
  }

  lemma {:induction false} FeedChunks(b: seq<byte>, out: seq<seq<byte>>, fs: seq<Frame>, m: Chunks, i: nat)
    requires HoldsExactly(fs, [m], 0, i)
    ensures SessionRun(b, out, fs) == (if i > 0 then Held(m, i) else b, out)
    decreases |fs|
  {
    hide Held, SessionStep, Carries;
    if i > 0 {
      FeedChunks(b, out, fs[..|fs| - 1], m, i - 1);
      FeedChunk(out, SessionRun(b, out, fs[..|fs| - 1]).0, fs[|fs| - 1], m, i - 1);
    }
  }

  /** From any state of a session, the frames of a message deliver it if and only if it has one fragment or a non-empty
      first one; otherwise they deliver nothing. */
  lemma MessageDeliveredIff(b: seq<byte>, out: seq<seq<byte>>, fs: seq<Frame>, m: Chunks)
    requires m != [] && HoldsExactly(fs, [m], 1, 0)
    ensures SessionRun(b, out, fs).1 == out + (if ValidChunks(m) then [Joined(m)] else [])
    ensures SessionRun(b, out, fs).1 == out + [Joined(m)] <==> ValidChunks(m)
  {
    hide Joined, Held, SessionStep, Carries;
    FeedChunks(b, out, fs[..|fs| - 1], m, |m| - 1);
    FeedLastChunk(out, SessionRun(b, out, fs[..|fs| - 1]).0, fs[|fs| - 1], m);
    assert |out + []| < |out + [Joined(m)]|;
  }

  lemma EmptyFirstFragmentIsLost()
    ensures var first := Frame(32, false, true, false, 7, [], 0, 0);
            var second := Frame(33, false, false, true, 7, [1], 0, 32);
            SessionFeed([first, second]) == ([], [])
  {
    var first, second := Frame(32, false, true, false, 7, [], 0, 0), Frame(33, false, false, true, 7, [1], 0, 32);
    assert [first, second][..1] == [first] && [first][..0] == [];
    assert SessionFeed([first]) == ([], []);
  }

  /** For any images, any sizes of windows and limits, any interleaving of sessions, and whatever the delegate answers,
      the messages it did not abort are, for each session, exactly the deliverable messages whose frames have all been
      consumed: whole, in order, none lost and none repeated. */
  lemma ExactlyOncePerSession(logs: seq<seq<Frame>>, answers: Answers, states: seq<State>, polls: seq<Poll>,
                              sid: int, j: nat, ms: seq<Chunks>) returns (c: nat, i: nat)
    requires IsRun(logs, answers, states, polls) && j < |logs| && CarriedBy(logs, sid, j)
    requires Published(OfSession(logs[j], sid), ms)
    ensures var s := states[|polls|];
            && |s.next| == |logs| && s.next[j] <= |logs[j]| && c <= |ms|
            && HoldsExactly(OfSession(logs[j][..s.next[j]], sid), ms, c, i)
            && PayloadsOf(s.a.accepted, sid) == Payloads(Deliverable(ms[..c]))
  {
    hide IsRun, CarriedBy, HoldsExactly, PayloadsOf, Payloads, Feed, OfSession, SessionFeed;
    RunKeepsInv(logs, answers, states, polls, RunLast(logs, answers, states, polls), sid, j);
    var s := states[|polls|];
    var log, n := logs[j], s.next[j];
    assert log == log[..n] + log[n..];
    OfSessionConcat(log[..n], log[n..], sid);
    var all, got := OfSession(log, sid), OfSession(log[..n], sid);
    assert all[..|got|] == got;
    PrefixPublished(all, ms, |got|);
    c, i :| HoldsExactly(got, ms, c, i);
    HoldsBounds(got, ms, c, i);
    WholeMessagesInOrder(got, ms, c, i);
    SessionsAreIndependent(s.consumed, sid);
  }

  ghost function RunLast(logs: seq<seq<Frame>>, answers: Answers, states: seq<State>, polls: seq<Poll>): (k: nat)
    requires IsRun(logs, answers, states, polls)
    ensures k == |polls| && k < |states|
  {
    |polls|
  }

  lemma HoldsBounds(fs: seq<Frame>, ms: seq<Chunks>, c: nat, i: nat)
    requires HoldsExactly(fs, ms, c, i)
    ensures c <= |ms| && (i > 0 ==> c < |ms| && i < |ms[c]|)
  {
  }
}

/** Images polled through one controlled assembler, as objects: from their byte positions alone the polls make up a run
    of `ExactlyOnce`, so its theorem is about them. */
module Polling {
  import opened LogFrames
  import opened Positions
  import opened Image
  import opened Assembler
  import opened ExactlyOnce
  import opened LogLayout

  ghost function Logs(streams: seq<Stream>): (logs: seq<seq<Frame>>)
    ensures |logs| == |streams| && forall j | 0 <= j < |streams| :: logs[j] == streams[j].log
  {
    seq(|streams|, j requires 0 <= j < |streams| => streams[j].log)
  }

  /** The polls so far are a run that ends with this assembler; next says how many frames of each log were consumed. */
  ghost predicate Polled(streams: seq<Stream>, answers: Answers, states: seq<State>, polls: seq<Poll>, next: seq<nat>,
                         a: Controlled)
  {
    && IsRun(Logs(streams), answers, states, polls)
    && states[|polls|].next == next && states[|polls|].a == a && |next| == |streams|
  }

  lemma NothingPolled(streams: seq<Stream>, answers: Answers)
    ensures Polled(streams, answers, [State(seq(|streams|, _ => 0), [], Controlled(map[], 0, []))], [],
                   seq(|streams|, _ => 0), Controlled(map[], 0, []))
  {
  }

  /** One more poll of image j, which saw its log up to hi. */
  lemma PolledOnce(streams: seq<Stream>, answers: Answers, states: seq<State>, polls: seq<Poll>, next: seq<nat>,
                   a: Controlled, c: Poll, n: nat, a': Controlled, read: int) returns (s': State)
    requires Polled(streams, answers, states, polls, next, a) && c.image < |streams|
    requires next[c.image] <= c.hi <= |streams[c.image].log|
    requires var window := streams[c.image].log[next[c.image]..c.hi];
             n <= |window| && ControlledOutcome(window, c.limit, AsHandler(answers), a, n, a', read)
    ensures Polled(streams, answers, states + [s'], polls + [c], next[c.image := next[c.image] + n], a')
  {
    hide ControlledOutcome, AsHandler;
    var s := states[|polls|];
    var logs := Logs(streams);
    var window := logs[c.image][next[c.image]..c.hi];
    s' := State(next[c.image := next[c.image] + n], s.consumed + window[..n], a');
    assert PollStep(logs, answers, s, c, s');
    var more, cs := states + [s'], polls + [c];
    hide PollStep;
    forall k {:trigger cs[k]} | 0 <= k < |cs|
      ensures PollStep(logs, answers, more[k], cs[k], more[k + 1])
    {
      if k < |polls| { assert cs[k] == polls[k]; }
    }
  }

  class Subscriber {
    const answers: Answers  // what the application's handler answers, call by call
    const images: seq<LogImage>
    var assembler: Controlled
    ghost const streams: seq<Stream>
    ghost var next: seq<nat>
    ghost var states: seq<State>
    ghost var polls: seq<Poll>

    /** Each image stands, by its byte position, at the next frame of its log; the polls so far are a run. */
    ghost predicate Valid()
      reads this, images
    {
      && |images| == |streams| == |next|
      && (forall i, j | 0 <= i < j < |images| :: images[i] != images[j])
      && (forall j | 0 <= j < |images| :: InStep(images[j], streams[j], next[j]))
      && Polled(streams, answers, states, polls, next, assembler)
    }

    constructor (answers: Answers, images: seq<LogImage>, ghost streams: seq<Stream>)
      requires |images| == |streams| && forall i, j | 0 <= i < j < |images| :: images[i] != images[j]
      requires forall j | 0 <= j < |images| :: InStep(images[j], streams[j], 0)
      ensures Valid() && this.images == images && this.streams == streams && this.answers == answers
    {
      this.answers, this.images, this.streams := answers, images, streams;
      this.assembler := Controlled(map[], 0, []);
      this.next, this.polls := seq(|streams|, _ => 0), [];
      this.states := [State(seq(|streams|, _ => 0), [], Controlled(map[], 0, []))];
      NothingPolled(streams, answers);
    }

    /** Publishers and the driver fill, reset and reuse the term buffers behind the image's back. */
    method TermsChange(j: nat, terms: seq<Term>)
      requires Valid() && j < |images| && |terms| == 3
      requires forall k | 0 <= k < 3 :: ValidTerm(terms[k], images[j].termLength)
      modifies images[j]
      ensures Valid() && images[j].terms == terms
    {
      hide Polled, LaidOut;
      images[j].terms := terms;
    }

    /** A poll of image j while its buffers show the log from where it stands up to hi. */
    method ControlledPoll(j: nat, fragmentLimit: int, ghost hi: nat) returns (fragmentsRead: int)
      requires Valid() && j < |images|
      requires Shows(images[j].terms, streams[j], next[j], hi)
      modifies this, images[j]
      ensures Valid() && |next| == |old(next)| && old(next[j]) <= next[j] <= hi
      ensures forall i | 0 <= i < |next| && i != j :: next[i] == old(next[i])
      ensures fragmentsRead == |DataFrames(streams[j].log[old(next[j])..next[j]])|
      ensures if images[j].isClosed then states == old(states) && polls == old(polls)
              else old(states) < states && polls == old(polls) + [Poll(j, hi, fragmentLimit)]
    {
      hide Polled, LaidOut, Shows, Chain, ControlledOutcome, Pow2, AlignedSum, CommitStores;
      var image := images[j];
      ghost var st, lo := streams[j], next[j];
      AheadIsLog(image.terms, st, lo, hi);
      ShownWithin(image.terms, st, lo, hi);
      ghost var window := st.log[lo..hi];
      assert image.Ahead() == window;
      var a;
      ghost var n;
      fragmentsRead, a, n := image.ControlledPoll(AsHandler(answers), assembler, fragmentLimit);
      ResumesAt(st, lo, hi, n);
      if image.isClosed {
        assert window[..0] == [] && st.log[lo..lo] == [];
      } else {
        ghost var s' := PolledOnce(streams, answers, states, polls, next, assembler, Poll(j, hi, fragmentLimit), n, a,
                                   fragmentsRead);
        ReadCounts(window, fragmentLimit, AsHandler(answers), assembler, n, a, fragmentsRead);
        assert window[..n] == st.log[lo..lo + n];
        states, polls := states + [s'], polls + [Poll(j, hi, fragmentLimit)];
        next := next[j := lo + n];
        assembler := a;
      }
    }
  }

  lemma ShownWithin(terms: seq<Term>, st: Stream, lo: nat, hi: nat)
    requires Shows(terms, st, lo, hi)
    ensures lo <= hi <= |st.log|
  {
  }

  lemma ReadCounts<H>(fs: seq<Frame>, limit: int, handler: Handler<H>, h: H, n: nat, h': H, read: int)
    requires ControlledOutcome(fs, limit, handler, h, n, h', read)
    ensures n <= |fs| && read == |DataFrames(fs[..n])|
  {
  }

  /** At any time the application has accepted, of each session, exactly the deliverable messages in the frames below
      its image's byte position: whole, in order, each once. */
  lemma AcceptedExactlyOnce(sub: Subscriber, sid: int, j: nat, ms: seq<Chunks>) returns (c: nat, i: nat)
    requires sub.Valid() && j < |sub.images| && CarriedBy(Logs(sub.streams), sid, j)
    requires Published(OfSession(sub.streams[j].log, sid), ms)
    ensures sub.next[j] <= |sub.streams[j].log| && c <= |ms|
    ensures sub.images[j].subscriberPosition == PositionAt(sub.streams[j], sub.next[j])
    ensures HoldsExactly(OfSession(sub.streams[j].log[..sub.next[j]], sid), ms, c, i)
    ensures PayloadsOf(sub.assembler.accepted, sid) == Payloads(Deliverable(ms[..c]))
  {
    hide IsRun, LaidOut, HoldsExactly, OfSession, PayloadsOf, Payloads, Deliverable;
    c, i := ExactlyOncePerSession(Logs(sub.streams), sub.answers, sub.states, sub.polls, sid, j, ms);
  }
}

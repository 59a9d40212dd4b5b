/** Fragment reassembly: aeron/fragmentassembler.go and aeron/controlledfragmentassembler.go. */
module Assembler {
  import opened Bits
  import opened LogFrames
  import opened Image

  /** Per-session byte builders. */
  type Builders = map<int, seq<byte>>

  /** A whole message handed to the delegate. */
  datatype Delivery = Delivery(sessionId: int, payload: seq<byte>)

  // ---------------------------------------------------------------------------------------------
  // The plain assembler
  // ---------------------------------------------------------------------------------------------

  /** `FragmentAssembler.OnFragment`: the new builders and what the delegate is given. */
  function PlainStep(bs: Builders, f: Frame): (r: (Builders, seq<Delivery>)) {
    var sid := f.sessionId;
    if f.begin && f.end then (bs, [Delivery(sid, f.payload)])
    else if f.begin then (bs[sid := f.payload], [])
    else if sid in bs && bs[sid] != [] then
      var b := bs[sid] + f.payload;
      if f.end then (bs[sid := []], [Delivery(sid, b)]) else (bs[sid := b], [])
    else (bs, [])
  }

  class FragmentAssembler {
    var builders: Builders
    var delivered: seq<Delivery>  // what the delegate has been given

    constructor ()
      ensures builders == map[] && delivered == []
    {
      builders, delivered := map[], [];
    }

    method OnFragment(f: Frame)
      modifies this
      ensures builders == PlainStep(old(builders), f).0
      ensures delivered == old(delivered) + PlainStep(old(builders), f).1
    {
      var sid := f.sessionId;
      if f.begin && f.end {
        delivered := delivered + [Delivery(sid, f.payload)];
      } else if f.begin {
        if sid !in builders {
          builders := builders[sid := []];
        }
        builders := builders[sid := []];
        builders := builders[sid := builders[sid] + f.payload];
        assert [] + f.payload == f.payload;
        assert builders == old(builders)[sid := f.payload];
      } else if sid in builders && |builders[sid]| != 0 {
        builders := builders[sid := builders[sid] + f.payload];
        if f.end {
          delivered := delivered + [Delivery(sid, builders[sid])];
          builders := builders[sid := []];
          assert builders == old(builders)[sid := []];
        }
      }
    }
  }

  // ---------------------------------------------------------------------------------------------
  // The controlled assembler
  // ---------------------------------------------------------------------------------------------

  /** The assembler and its delegate: how often it was called and what it took, that is, did not abort. */
  datatype Controlled = Controlled(builders: Builders, calls: nat, accepted: seq<Delivery>)

  /** The delegate's answers, one for each call; any delegate in any run corresponds to some such function. */
  type Answers = nat -> Action

  function Delegate(answers: Answers, a: Controlled, d: Delivery): (r: (Controlled, Action)) {
    var action := answers(a.calls);
    (a.(calls := a.calls + 1, accepted := if action == Abort then a.accepted else a.accepted + [d]), action)
  }

  /** `ControlledFragmentAssembler.OnFragment`. */
  function ControlledStep(answers: Answers, a: Controlled, f: Frame): (r: (Controlled, Action)) {
    var sid := f.sessionId;
    if f.begin && f.end then Delegate(answers, a, Delivery(sid, f.payload))
    else if f.begin then (a.(builders := a.builders[sid := f.payload]), Continue)
    else if sid in a.builders && a.builders[sid] != [] then
      var b := a.builders[sid] + f.payload;
      if f.end then
        var (a', action) := Delegate(answers, a, Delivery(sid, b));
        (if action == Abort then a' else a'.(builders := a.builders[sid := []]), action)
      else (a.(builders := a.builders[sid := b]), Continue)
    else (a, Continue)
  }

  class ControlledFragmentAssembler {
    var builders: Builders
    var calls: nat
    var accepted: seq<Delivery>

    ghost function View(): (a: Controlled)
      reads this
    {
      Controlled(builders, calls, accepted)
    }

    constructor ()
      ensures View() == Controlled(map[], 0, [])
    {
      builders, calls, accepted := map[], 0, [];
    }

    method CallDelegate(answers: Answers, d: Delivery) returns (action: Action)
      modifies this`calls, this`accepted
      ensures (View(), action) == Delegate(answers, old(View()), d)
    {
      action := answers(calls);
      calls := calls + 1;
      if action != Abort {
        accepted := accepted + [d];
      }
    }

    method OnFragment(answers: Answers, f: Frame) returns (action: Action)
      modifies this
      ensures (View(), action) == ControlledStep(answers, old(View()), f)
    {
      action := Continue;
      var sid := f.sessionId;
      if f.begin && f.end {
        action := CallDelegate(answers, Delivery(sid, f.payload));
      } else if f.begin {
        builders := builders[sid := []];
        builders := builders[sid := builders[sid] + f.payload];
        assert [] + f.payload == f.payload;
        assert builders == old(builders)[sid := f.payload];
      } else if sid in builders {
        var limit := |builders[sid]|;
        if limit > 0 {
          builders := builders[sid := builders[sid] + f.payload];
          if f.end {
            action := CallDelegate(answers, Delivery(sid, builders[sid]));
            if action == Abort {
              builders := builders[sid := builders[sid][..limit]];  // Truncate
              assert builders[sid] == old(builders)[sid];
              assert builders == old(builders);
            } else {
              builders := builders[sid := []];
              assert builders == old(builders)[sid := []];
            }
          }
        }
      }
    }
  }

  /** An answer other than Abort makes the controlled assembler do exactly what the plain one does; an Abort leaves
      builders and accepted messages exactly as they were, so the frame can be offered again. */
  lemma ControlledVersusPlain(answers: Answers, a: Controlled, f: Frame)
    ensures var (a', action) := ControlledStep(answers, a, f);
            if action == Abort then a'.builders == a.builders && a'.accepted == a.accepted
            else a'.builders == PlainStep(a.builders, f).0 && a'.accepted == a.accepted + PlainStep(a.builders, f).1
  {
    assert a.accepted + [] == a.accepted;
  }

  // ---------------------------------------------------------------------------------------------
  // Polling through the controlled assembler
  // ---------------------------------------------------------------------------------------------

  function AsHandler(answers: Answers): (h: Handler<Controlled>) {
    (a, f) => ControlledStep(answers, a, f)
  }

  /** The reference: the plain assembler given every data frame of a log once. */
  function Feed(log: seq<Frame>): (r: (Builders, seq<Delivery>))
    decreases |log|
  {
    if log == [] then (map[], [])
    else
      var last := |log| - 1;
      var (bs, out) := Feed(log[..last]);
      if log[last].padding then (bs, out)
      else var (bs', more) := PlainStep(bs, log[last]); (bs', out + more)
  }

  ghost predicate Agrees(a: Controlled, log: seq<Frame>) {
    (a.builders, a.accepted) == Feed(log)
  }

  lemma FeedOneMore(log: seq<Frame>, i: nat)
    requires i < |log|
    ensures var (bs, out) := Feed(log[..i]); (
            Feed(log[..i + 1]) == if log[i].padding then (bs, out)
                                  else var (bs', more) := PlainStep(bs, log[i]); (bs', out + more))
  {
    assert log[..i + 1][..i] == log[..i];
  }

  /** One accepted frame further, the two still agree. */
  lemma AgreesOneMore(answers: Answers, a: Controlled, log: seq<Frame>, i: nat)
    requires i < |log| && Agrees(a, log[..i])
    ensures log[i].padding ==> Agrees(a, log[..i + 1])
    ensures !log[i].padding ==>
              var (a', action) := ControlledStep(answers, a, log[i]);
              Agrees(a', log[..if action == Abort then i else i + 1])
  {
    hide ControlledStep, PlainStep, Feed;
    FeedOneMore(log, i);
    ControlledVersusPlain(answers, a, log[i]);
  }

  lemma {:induction false} WalkAgrees(answers: Answers, a: Controlled, log: seq<Frame>, i: nat, n: nat)
    requires i + n <= |log| && Agrees(a, log[..i]) && Smooth(AsHandler(answers), a, log[i..i + n])
    ensures Agrees(Walk(AsHandler(answers), a, log[i..i + n]), log[..i + n])
    decreases n
  {
    hide ControlledStep, Agrees, Feed;
    var fs := log[i..i + n];
    if n > 0 {
      assert fs[..n - 1] == log[i..i + n - 1];
      WalkAgrees(answers, a, log, i, n - 1);
      AgreesOneMore(answers, Walk(AsHandler(answers), a, fs[..n - 1]), log, i + n - 1);
    }
  }

  /** One controlled poll over any window of the log keeps the agreement, whatever the delegate answers. */
  lemma PollAgrees(answers: Answers, a: Controlled, log: seq<Frame>, i: nat, hi: nat, limit: int,
                   n: nat, a': Controlled, read: int)
    requires i <= hi <= |log| && Agrees(a, log[..i])
    requires ControlledOutcome(log[i..hi], limit, AsHandler(answers), a, n, a', read)
    ensures i + n <= hi && Agrees(a', log[..i + n])
  {
    hide ControlledStep, Agrees, Feed, Walk, Smooth, DataFrames;
    var fs := log[i..hi];
    assert fs[..n] == log[i..i + n];
    if Smooth(AsHandler(answers), a, fs[..n]) {
      WalkAgrees(answers, a, log, i, n);
      if n < |fs| && !fs[n].padding {
        AgreesOneMore(answers, Walk(AsHandler(answers), a, fs[..n]), log, i + n);
      }
    }
    if n > 0 && Smooth(AsHandler(answers), a, fs[..n - 1]) {
      assert fs[..n - 1] == log[i..i + (n - 1)];
      WalkAgrees(answers, a, log, i, n - 1);
      AgreesOneMore(answers, Walk(AsHandler(answers), a, fs[..n - 1]), log, i + n - 1);
    }
  }
}

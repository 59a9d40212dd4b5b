/** Round-robin polling of a subscription's images (aeron/subscription.go). */
module RoundRobin {

  /** What polling image i with a limit delivers; each image is visited at most once per poll. */
  type Deliver = (nat, int) -> int

  ghost predicate Sound(deliver: Deliver) {
    forall i: nat, limit :: limit > 0 ==> 0 <= deliver(i, limit) <= limit
  }

  /** The image polled first and the index left for the next poll; the one past the end starts at 0 and stays there. */
  function StartOf(index: nat, n: nat): (i: nat)
    requires n > 0
    ensures i < n
  {
    if index >= n then 0 else index
  }

  function NextIndex(index: nat, n: nat): (i: nat)
    ensures i <= n
  {
    if index >= n then 0 else index + 1
  }

  /** All images from start on, wrapping round. */
  function Rotation(start: nat, n: nat): (order: seq<nat>)
    requires start < n
    ensures |order| == n && forall k | 0 <= k < n :: order[k] == if start + k < n then start + k else start + k - n
  {
    seq(n, k requires 0 <= k < n => if start + k < n then start + k else start + k - n)
  }

  /** Fragments read once the images of order have been polled with what was left of the limit. */
  function Total(deliver: Deliver, order: seq<nat>, limit: int): (sum: int) {
    if order == [] then 0
    else
      var before := Total(deliver, order[..|order| - 1], limit);
      before + deliver(order[|order| - 1], limit - before)
  }

  /** m images were polled, each while there was something left of the limit. */
  ghost predicate Going(deliver: Deliver, order: seq<nat>, limit: int, m: nat, read: int) {
    && m <= |order| && read == Total(deliver, order[..m], limit) && (m == 0 || read <= limit)
    && (forall k | 0 <= k < m :: Total(deliver, order[..k], limit) < limit)
  }

  lemma GoesOn(deliver: Deliver, order: seq<nat>, limit: int, m: nat, read: int)
    requires Sound(deliver) && Going(deliver, order, limit, m, read) && m < |order| && read < limit
    ensures Going(deliver, order, limit, m + 1, read + deliver(order[m], limit - read))
  {
    hide Total;
    TotalOneMore(deliver, order, m, limit);
  }

  /** A poll went through a rotation, to its end or until the limit was used up. */
  ghost predicate PollOutcome(deliver: Deliver, start: nat, n: nat, limit: int, m: nat, read: int)
    requires start < n
  {
    Going(deliver, Rotation(start, n), limit, m, read) && (m == n || read >= limit)
  }

  class Subscription {
    var roundRobinIndex: nat

    constructor ()
      ensures roundRobinIndex == 0
    {
      roundRobinIndex := 0;
    }

    /** `Poll` and `ControlledPoll`, which differ only in the call made for each image; m images are visited. */
    method Poll(n: nat, deliver: Deliver, fragmentLimit: int) returns (fragmentsRead: int, ghost m: nat)
      requires Sound(deliver)
      modifies this
      ensures n == 0 ==> fragmentsRead == 0 && m == 0 && roundRobinIndex == old(roundRobinIndex)
      ensures n > 0 ==> roundRobinIndex == NextIndex(old(roundRobinIndex), n)
                        && PollOutcome(deliver, StartOf(old(roundRobinIndex), n), n, fragmentLimit, m, fragmentsRead)
    {
      fragmentsRead, m := 0, 0;
      if n > 0 {
        var startingIndex := roundRobinIndex;
        roundRobinIndex := roundRobinIndex + 1;
        if startingIndex >= n {
          roundRobinIndex := 0;
          startingIndex := 0;
        }
        ghost var order := Rotation(startingIndex, n);
        assert order[..0] == [];
        fragmentsRead, m := PollRange(deliver, order, startingIndex, n, fragmentLimit, 0, 0);
        fragmentsRead, m := PollRange(deliver, order, 0, startingIndex, fragmentLimit, fragmentsRead, m);
      }
    }

    /** Each of the two loops. */
    static method PollRange(deliver: Deliver, ghost order: seq<nat>, from: nat, to: nat, fragmentLimit: int, read: int,
                            ghost m0: nat)
      returns (fragmentsRead: int, ghost m: nat)
      requires Sound(deliver) && from <= to && Going(deliver, order, fragmentLimit, m0, read)
      requires read < fragmentLimit ==>
                 m0 + (to - from) <= |order| && forall k | m0 <= k < m0 + (to - from) :: order[k] == from + (k - m0)
      ensures Going(deliver, order, fragmentLimit, m, fragmentsRead)
      ensures m == m0 + (to - from) || fragmentsRead >= fragmentLimit
    {
      hide Going, Sound;
      fragmentsRead, m := read, m0;
      var i := from;
      while i < to && fragmentsRead < fragmentLimit
        invariant from <= i <= to && m == m0 + (i - from) && Going(deliver, order, fragmentLimit, m, fragmentsRead)
        invariant read >= fragmentLimit ==> i == from && fragmentsRead == read
      {
        var newFrags := deliver(i, fragmentLimit - fragmentsRead);
        assert order[m] == i;
        GoesOn(deliver, order, fragmentLimit, m, fragmentsRead);
        fragmentsRead, m := fragmentsRead + newFrags, m + 1;
        i := i + 1;
      }
    }
  }

  lemma TotalOneMore(deliver: Deliver, order: seq<nat>, m: nat, limit: int)
    requires m < |order|
    ensures var before := Total(deliver, order[..m], limit);
            Total(deliver, order[..m + 1], limit) == before + deliver(order[m], limit - before)
  {
    assert order[..m + 1][..m] == order[..m];
  }

  // ---------------------------------------------------------------------------------------------
  // One poll
  // ---------------------------------------------------------------------------------------------

  /** A poll visits no image twice, visits every image if the limit is not used up, and never reads more than the
      limit. */
  lemma EachImageAtMostOnce(deliver: Deliver, start: nat, n: nat, limit: int, m: nat, read: int)
    requires start < n && PollOutcome(deliver, start, n, limit, m, read)
    ensures forall j, k | 0 <= j < k < m :: Rotation(start, n)[j] != Rotation(start, n)[k]
    ensures read < limit ==> m == n && forall i: nat | i < n :: i in Rotation(start, n)
    ensures read <= if limit > 0 then limit else 0
  {
    hide Total;
    if m == 0 {
      NothingRead(deliver, limit);
      assert Rotation(start, n)[..0] == [];
    } else {
      assert Total(deliver, Rotation(start, n)[..0], limit) < limit;
      NothingRead(deliver, limit);
      assert Rotation(start, n)[..0] == [];
    }
    forall i: nat | i < n
      ensures i in Rotation(start, n)
    {
      var k := if i >= start then i - start else i + n - start;
      assert Rotation(start, n)[k] == i;
    }
  }

  lemma NothingRead(deliver: Deliver, limit: int)
    ensures Total(deliver, [], limit) == 0
  {
  }

  // ---------------------------------------------------------------------------------------------
  // Fairness
  // ---------------------------------------------------------------------------------------------

  /** The index before the k-th of consecutive polls of n images. */
  function IndexAt(index: nat, n: nat, k: nat): (i: nat) {
    if k == 0 then index else NextIndex(IndexAt(index, n, k - 1), n)
  }

  /** Which image the k-th poll visits first. */
  function FirstAt(index: nat, n: nat, k: nat): (i: nat)
    requires n > 0
    ensures i < n
  {
    StartOf(IndexAt(index, n, k), n)
  }

  /** The index runs through 0, ..., n and starts again; anything beyond n counts as n. */
  lemma {:induction false} IndexCycles(index: nat, n: nat, k: nat)
    requires n > 0
    ensures var from := if index > n then n else index;
            var at := IndexAt(index, n, k);
            (if at > n then n else at) == (from + k) % (n + 1)
  {
    if k > 0 {
      IndexCycles(index, n, k - 1);
      var x := (if index > n then n else index) + (k - 1);
      NextResidue(x, n + 1);
    }
  }

  lemma NextResidue(x: nat, d: nat)
    requires d > 0
    ensures (x + 1) % d == if x % d == d - 1 then 0 else x % d + 1
  {
    var q, r := x / d, x % d;
    assert x == q * d + r;
    if r == d - 1 {
      assert x + 1 == (q + 1) * d + 0;
      Residue(x + 1, d, q + 1, 0);
    } else {
      assert x + 1 == q * d + (r + 1);
      Residue(x + 1, d, q, r + 1);
    }
  }

  lemma Residue(x: int, d: int, q: int, r: int)
    requires d > 0 && 0 <= r < d && x == q * d + r
    ensures x % d == r
  {
    var q', r' := x / d, x % d;
    assert x == d * q' + r';
    assert (q - q') * d == r' - r;
    assert q - q' >= 1 ==> (q - q') * d >= d;
    assert q - q' <= -1 ==> (q - q') * d <= -d;
  }

  /** The one poll among n + 1 that has index value v, counting values beyond n as n. */
  function Turn(index: nat, n: nat, v: nat): (k: nat)
    requires v <= n
    ensures k <= n
  {
    var from := if index > n then n else index;
    if v >= from then v - from else v + n + 1 - from
  }

  lemma TurnIsOnlyOne(index: nat, n: nat, v: nat, k: nat)
    requires n > 0 && v <= n && k <= n
    ensures var at := IndexAt(index, n, k); (if at > n then n else at) == v <==> k == Turn(index, n, v)
  {
    IndexCycles(index, n, k);
    var from := if index > n then n else index;
    if from + k <= n {
      Residue(from + k, n + 1, 0, from + k);
    } else {
      assert from + k == 1 * (n + 1) + (from + k - n - 1);
      Residue(from + k, n + 1, 1, from + k - n - 1);
    }
  }

  /** Over any n + 1 consecutive polls of an unchanged list of n images, from any index, every image but the first in
      the list is polled first exactly once, and the first in the list exactly twice. */
  lemma FirstExactly(index: nat, n: nat, i: nat, k: nat)
    requires i < n && k <= n
    ensures FirstAt(index, n, k) == i <==> k == Turn(index, n, i) || (i == 0 && k == Turn(index, n, n))
    ensures Turn(index, n, 0) != Turn(index, n, n)
  {
    hide IndexAt;
    TurnIsOnlyOne(index, n, i, k);
    TurnIsOnlyOne(index, n, n, k);
  }

  /** So an image that has something is served within n + 1 polls, whatever the others have and however small the
      limit. */
  lemma ServedWithin(index: nat, n: nat, i: nat, deliver: Deliver, limit: int) returns (k: nat)
    requires i < n && limit > 0 && deliver(i, limit) > 0
    ensures k <= n && FirstAt(index, n, k) == i
    ensures forall m: nat, read | PollOutcome(deliver, FirstAt(index, n, k), n, limit, m, read) ::
              m > 0 && Rotation(FirstAt(index, n, k), n)[0] == i && Total(deliver, [i], limit) > 0
  {
    k := Turn(index, n, i);
    FirstExactly(index, n, i, k);
    assert Total(deliver, [i], limit) == deliver(i, limit) by { assert [i][..0] == []; }
    forall m: nat, read | PollOutcome(deliver, i, n, limit, m, read)
      ensures m > 0
    {
      assert Rotation(i, n)[..0] == [];
    }
  }
}

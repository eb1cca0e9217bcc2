/** How messages are combined into packets: a packet takes the longest prefix of the queue that fits. */
module Packing {
  import opened Packets

  function DataLen(messages: seq<Msg>): nat {
    if messages == [] then 0 else |messages[0]| + DataLen(messages[1..])
  }

  /** Every message fits into a packet on its own. */
  ghost predicate Sendable(messages: seq<Msg>) {
    forall m :: m in messages ==> |m| <= MAX_PACKET_DATA_LEN
  }

  /** The number of messages at the front of the queue that fit into `available` bytes. */
  function FittingCount(queue: seq<Msg>, available: nat): (n: nat)
    ensures n <= |queue|
  {
    if queue == [] || |queue[0]| > available then 0
    else 1 + FittingCount(queue[1..], available - |queue[0]|)
  }

  method CountFitting(queue: seq<Msg>) returns (included: nat)
    ensures included == FittingCount(queue, MAX_PACKET_DATA_LEN)
  {
    var available: nat := MAX_PACKET_DATA_LEN;
    included := 0;
    for i := 0 to |queue|
      invariant included == i
      invariant included + FittingCount(queue[i..], available) == FittingCount(queue, MAX_PACKET_DATA_LEN)
    {
      if |queue[i]| <= available {
        available := available - |queue[i]|;
        included := included + 1;
      } else {
        break;
      }
    }
  }

  /** Every round of the flush loop takes at least one message off a queue of messages that fit. */
  lemma FirstFits(queue: seq<Msg>)
    requires Sendable(queue) && queue != []
    ensures var n := FittingCount(queue, MAX_PACKET_DATA_LEN); 0 < n && Sendable(queue[n..])
  {
    assert queue[0] in queue;
  }

  /** The count is the largest: every shorter prefix fits, and one message more does not. */
  lemma {:induction false} FittingIsMaximal(queue: seq<Msg>, available: nat, m: nat)
    requires m <= |queue|
    ensures DataLen(queue[..m]) <= available <==> m <= FittingCount(queue, available)
  {
    if m == 0 {
    } else {
      assert queue[..m][1..] == queue[1..][..m - 1];
      if |queue[0]| <= available {
        FittingIsMaximal(queue[1..], available - |queue[0]|, m - 1);
      }
    }
  }

  /** The packets the unreliable flush makes of a queue. */
  function Split(queue: seq<Msg>): (parts: seq<seq<Msg>>)
    requires Sendable(queue)
  {
    if queue == [] then [] else
    var n := FittingCount(queue, MAX_PACKET_DATA_LEN);
    [queue[..n]] + Split(queue[n..])
  }

  function Flatten(parts: seq<seq<Msg>>): seq<Msg> {
    if parts == [] then [] else parts[0] + Flatten(parts[1..])
  }

  /** An order-preserving way to distribute a queue over packets. */
  ghost predicate IsSplit(parts: seq<seq<Msg>>, queue: seq<Msg>) {
    && Flatten(parts) == queue
    && forall p :: p in parts ==> DataLen(p) <= MAX_PACKET_DATA_LEN
  }

  lemma ConsSplit(part: seq<Msg>, rest: seq<seq<Msg>>, queue: seq<Msg>)
    requires DataLen(part) <= MAX_PACKET_DATA_LEN && IsSplit(rest, queue)
    ensures IsSplit([part] + rest, part + queue)
  {
    assert ([part] + rest)[1..] == rest;
  }

  lemma {:induction false} SplitIsSplit(queue: seq<Msg>)
    requires Sendable(queue)
    ensures IsSplit(Split(queue), queue)
    decreases |queue|
  {
    if queue != [] {
      var n := FittingCount(queue, MAX_PACKET_DATA_LEN);
      var part, rest := queue[..n], Split(queue[n..]);
      FittingIsMaximal(queue, MAX_PACKET_DATA_LEN, n);
      SplitIsSplit(queue[n..]);
      ConsSplit(part, rest, queue[n..]);
      assert part + queue[n..] == queue;
    }
  }

  /** A shorter rest of the same queue never needs more packets. */
  lemma {:induction false} SplitOfSuffix(queue: seq<Msg>, k: nat)
    requires Sendable(queue) && k <= |queue|
    ensures |Split(queue[k..])| <= |Split(queue)|
    decreases |queue|
  {
    if queue == [] || k == |queue| {
    } else {
      var n := FittingCount(queue, MAX_PACKET_DATA_LEN);
      if n <= k {
        assert queue[k..] == queue[n..][k - n..];
        SplitOfSuffix(queue[n..], k - n);
      } else {
        var j := FittingCount(queue[k..], MAX_PACKET_DATA_LEN);
        SuffixFitsMore(queue, k, MAX_PACKET_DATA_LEN);
        assert queue[k..][j..] == queue[n..][k + j - n..];
        SplitOfSuffix(queue[n..], k + j - n);
      }
    }
  }

  /** Dropping messages from the front leaves room for at least as many at the back. */
  lemma {:induction false} SuffixFitsMore(queue: seq<Msg>, k: nat, available: nat)
    requires k <= FittingCount(queue, available)
    ensures FittingCount(queue, available) <= k + FittingCount(queue[k..], available)
  {
    if k > 0 {
      var left := available - |queue[0]|;
      assert queue[k..] == queue[1..][k - 1..];
      SuffixFitsMore(queue[1..], k - 1, left);
      RoomHelps(queue[k..], left, available);
    }
  }

  lemma {:induction false} RoomHelps(queue: seq<Msg>, less: nat, more: nat)
    requires less <= more
    ensures FittingCount(queue, less) <= FittingCount(queue, more)
  {
    if queue != [] && |queue[0]| <= less {
      RoomHelps(queue[1..], less - |queue[0]|, more - |queue[0]|);
    }
  }

  /** The first packet of any split holds no more messages than the greedy one. */
  lemma FirstOfSplit(queue: seq<Msg>, other: seq<seq<Msg>>)
    requires Sendable(queue) && IsSplit(other, queue) && queue != []
    ensures other != [] && |other[0]| <= FittingCount(queue, MAX_PACKET_DATA_LEN)
    ensures Sendable(queue[|other[0]|..]) && IsSplit(other[1..], queue[|other[0]|..])
  {
    var m := |other[0]|;
    assert queue[..m] == other[0] && queue[m..] == Flatten(other[1..]);
    FittingIsMaximal(queue, MAX_PACKET_DATA_LEN, m);
  }

  /** No order-preserving split of the queue into packets that fit uses fewer packets. */
  lemma {:induction false} SplitIsOptimal(queue: seq<Msg>, other: seq<seq<Msg>>)
    requires Sendable(queue) && IsSplit(other, queue)
    ensures |Split(queue)| <= |other|
    decreases |other|
  {
    hide IsSplit, Sendable, FittingCount;
    if queue != [] {
      FirstOfSplit(queue, other);
      var m, n := |other[0]|, FittingCount(queue, MAX_PACKET_DATA_LEN);
      var rest := queue[m..];
      SplitIsOptimal(rest, other[1..]);
      assert |Split(queue)| <= 1 + |Split(rest)| by {
        assert queue[n..] == rest[n - m..];
        SplitOfSuffix(rest, n - m);
      }
    }
  }

  /** What is left of the queue after `steps` rounds of the unreliable flush loop. */
  function QueueAfter(queue: seq<Msg>, steps: nat): seq<Msg> {
    if steps == 0 || queue == [] then queue
    else QueueAfter(queue[FittingCount(queue, MAX_PACKET_DATA_LEN)..], steps - 1)
  }

  /** The unreliable flush loop reaches the empty queue iff no message is too large for a packet. */
  lemma LoopEndsIff(queue: seq<Msg>)
    ensures (exists steps: nat :: QueueAfter(queue, steps) == []) <==> Sendable(queue)
  {
    if Sendable(queue) {
      LoopEnds(queue);
    } else {
      forall steps: nat ensures QueueAfter(queue, steps) != [] {
        LoopStuck(queue, steps);
      }
    }
  }

  lemma {:induction false} LoopEnds(queue: seq<Msg>)
    requires Sendable(queue)
    ensures QueueAfter(queue, |Split(queue)|) == []
    decreases |queue|
  {
    if queue != [] {
      LoopEnds(queue[FittingCount(queue, MAX_PACKET_DATA_LEN)..]);
    }
  }

  lemma {:induction false} LoopStuck(queue: seq<Msg>, steps: nat)
    requires !Sendable(queue)
    ensures !Sendable(QueueAfter(queue, steps))
    decreases steps
  {
    hide Sendable, FittingCount;
    if steps > 0 {
      var n := FittingCount(queue, MAX_PACKET_DATA_LEN);
      FittingAreSendable(queue, MAX_PACKET_DATA_LEN);
      StillUnsendable(queue, n);
      LoopStuck(queue[n..], steps - 1);
    }
  }

  lemma StillUnsendable(queue: seq<Msg>, n: nat)
    requires !Sendable(queue) && n <= |queue| && Sendable(queue[..n])
    ensures !Sendable(queue[n..]) && queue != []
  {
    assert queue == queue[..n] + queue[n..];
  }

  lemma {:induction false} FittingAreSendable(queue: seq<Msg>, available: nat)
    requires available <= MAX_PACKET_DATA_LEN
    ensures Sendable(queue[..FittingCount(queue, available)])
  {
    if queue != [] && |queue[0]| <= available {
      FittingAreSendable(queue[1..], available - |queue[0]|);
      var n := FittingCount(queue, available);
      assert queue[..n] == [queue[0]] + queue[1..][..n - 1];
    }
  }
}

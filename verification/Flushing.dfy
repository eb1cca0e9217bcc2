/** Turning queued messages into packets, and sending what is due. */
module Flushing {
  import opened WrappingIds
  import opened Windows
  import opened Packets
  import opened Packing

  type usize = x: int | 0 <= x < 0x1_0000_0000_0000_0000

  /** A reliable packet that waits for its acknowledgement. The clock is not part of the state. */
  datatype Pending = Pending(remainingRetries: usize, packet: Packet)

  ghost predicate IsRing<T>(w: Window<T>) {
    w.Valid() && w.n == SLOTS
  }

  datatype Flushed = Flushed(window: Window<Pending>, queue: seq<Msg>, made: seq<Packet>)

  function ReliablePacket(id: u16, reliable: Window<()>, ordered: Window<Packet>, isOrdered: bool,
                          messages: seq<Msg>): Packet
  {
    Packet(NewAck(id, reliable, ordered), true, isOrdered, messages)
  }

  /** Fill the send ring from the queue until the next slot is in use or the queue is empty. */
  function FlushReliable(sent: Window<Pending>, reliable: Window<()>, ordered: Window<Packet>,
                         queue: seq<Msg>, isOrdered: bool, retries: usize): (r: Flushed)
    requires IsRing(sent) && IsRing(reliable) && IsRing(ordered)
    ensures IsRing(r.window)
    ensures |r.made| + |sent.entries| == |r.window.entries| <= SLOTS
    decreases (sent.EntryCount(); SLOTS - |sent.entries|)
  {
    sent.EntryCount();
    if sent.PushWillOverride() || queue == [] then Flushed(sent, queue, []) else
    var n := FittingCount(queue, MAX_PACKET_DATA_LEN);
    var packet := ReliablePacket(sent.Next(), reliable, ordered, isOrdered, queue[..n]);
    sent.PushAdds(Pending(retries, packet));
    sent.Push(Pending(retries, packet)).EntryCount();
    var rest := FlushReliable(sent.Push(Pending(retries, packet)), reliable, ordered, queue[n..], isOrdered, retries);
    rest.(made := [packet] + rest.made)
  }

  /** Turn the whole unreliable queue into packets; `id` is the next unreliable sequence id. */
  function FlushUnreliable(id: u16, reliable: Window<()>, ordered: Window<Packet>, queue: seq<Msg>): (made: seq<Packet>)
    requires IsRing(reliable) && IsRing(ordered)
    requires Sendable(queue)
    decreases |queue|
  {
    if queue == [] then [] else
    var n := FittingCount(queue, MAX_PACKET_DATA_LEN);
    [Packet(NewAck(id, reliable, ordered), false, false, queue[..n])]
      + FlushUnreliable(WrappingAdd(id, 1), reliable, ordered, queue[n..])
  }

  /** All messages of a sequence of packets, in order. */
  function Contents(packets: seq<Packet>): seq<Msg> {
    if packets == [] then [] else packets[0].messages + Contents(packets[1..])
  }

  lemma {:induction false} InContents(packets: seq<Packet>, i: nat, m: Msg)
    requires i < |packets| && m in packets[i].messages
    ensures m in Contents(packets)
  {
    if i > 0 {
      InContents(packets[1..], i - 1, m);
    }
  }

  lemma ContentsCons(packet: Packet, packets: seq<Packet>, queue: seq<Msg>, n: nat, rest: seq<Msg>)
    requires n <= |queue| && packet.messages == queue[..n]
    requires Contents(packets) + rest == queue[n..]
    ensures Contents([packet] + packets) + rest == queue
  {
    assert ([packet] + packets)[1..] == packets;
  }

  /** Flushing a reliable queue loses, repeats and reorders no message. */
  lemma {:induction false} FlushKeepsMessages(
      sent: Window<Pending>, reliable: Window<()>, ordered: Window<Packet>,
      queue: seq<Msg>, isOrdered: bool, retries: usize)
    requires IsRing(sent) && IsRing(reliable) && IsRing(ordered)
    ensures var r := FlushReliable(sent, reliable, ordered, queue, isOrdered, retries);
      Contents(r.made) + r.queue == queue
    decreases (sent.EntryCount(); SLOTS - |sent.entries|)
  {
    if sent.PushWillOverride() || queue == [] {
    } else {
      var n, pending := FirstFlush(sent, reliable, ordered, queue, isOrdered, retries);
      var rest := FlushReliable(sent.Push(pending), reliable, ordered, queue[n..], isOrdered, retries);
      FlushKeepsMessages(sent.Push(pending), reliable, ordered, queue[n..], isOrdered, retries);
      ContentsCons(pending.packet, rest.made, queue, n, rest.queue);
    }
  }

  /** Unfolds one round of the flush loop. */
  lemma FirstFlush(
      sent: Window<Pending>, reliable: Window<()>, ordered: Window<Packet>,
      queue: seq<Msg>, isOrdered: bool, retries: usize) returns (n: nat, pending: Pending)
    requires IsRing(sent) && IsRing(reliable) && IsRing(ordered)
    requires !sent.PushWillOverride() && queue != []
    ensures n == FittingCount(queue, MAX_PACKET_DATA_LEN)
    ensures pending == Pending(retries, ReliablePacket(sent.Next(), reliable, ordered, isOrdered, queue[..n]))
    ensures DataLen(queue[..n]) <= MAX_PACKET_DATA_LEN
    ensures IsRing(sent.Push(pending)) && sent.Next() !in sent.entries
    ensures sent.Push(pending) == Window(SLOTS, sent.Next(), sent.entries[sent.Next() := pending])
    ensures |sent.entries| < |sent.Push(pending).entries| <= SLOTS
    ensures FlushReliable(sent, reliable, ordered, queue, isOrdered, retries)
         == var rest := FlushReliable(sent.Push(pending), reliable, ordered, queue[n..], isOrdered, retries);
            rest.(made := [pending.packet] + rest.made)
  {
    n := FittingCount(queue, MAX_PACKET_DATA_LEN);
    pending := Pending(retries, ReliablePacket(sent.Next(), reliable, ordered, isOrdered, queue[..n]));
    sent.PushAdds(pending);
    sent.Push(pending).EntryCount();
    FittingIsMaximal(queue, MAX_PACKET_DATA_LEN, n);
  }

  /** `later` is `sent` with `made` pending in addition, under the ids that follow the newest one. */
  ghost predicate Extends(sent: Window<Pending>, later: Window<Pending>, made: seq<Packet>, retries: usize) {
    && |made| <= SLOTS
    && later.newest == WrappingAdd(sent.newest, |made|)
    && (forall k :: k in sent.entries ==> k in later.entries && later.entries[k] == sent.entries[k])
    && (forall i :: 0 <= i < |made| ==>
          && WrappingAdd(sent.Next(), i) !in sent.entries
          && WrappingAdd(sent.Next(), i) in later.entries
          && later.entries[WrappingAdd(sent.Next(), i)] == Pending(retries, made[i]))
  }

  lemma ExtendsStep(sent: Window<Pending>, later: Window<Pending>, packet: Packet, made: seq<Packet>, retries: usize)
    requires sent.Next() !in sent.entries && |made| < SLOTS
    requires Extends(Window(SLOTS, sent.Next(), sent.entries[sent.Next() := Pending(retries, packet)]), later, made, retries)
    ensures Extends(sent, later, [packet] + made, retries)
  {
    var next := Window(SLOTS, sent.Next(), sent.entries[sent.Next() := Pending(retries, packet)]);
    forall i | 0 <= i <= |made|
      ensures WrappingAdd(sent.Next(), i) !in sent.entries
      ensures WrappingAdd(sent.Next(), i) in later.entries
      ensures later.entries[WrappingAdd(sent.Next(), i)] == Pending(retries, ([packet] + made)[i])
    {
      if i > 0 {
        assert WrappingAdd(sent.Next(), i) == WrappingAdd(next.Next(), i - 1);
      } else {
        assert sent.Next() in next.entries;
      }
    }
  }

  /**
   * The flush loop overwrites no pending packet, and it stops only at a used slot or an empty queue.
   */
  lemma {:induction false} FlushKeepsPending(
      sent: Window<Pending>, reliable: Window<()>, ordered: Window<Packet>,
      queue: seq<Msg>, isOrdered: bool, retries: usize)
    requires IsRing(sent) && IsRing(reliable) && IsRing(ordered)
    ensures var r := FlushReliable(sent, reliable, ordered, queue, isOrdered, retries);
      && Extends(sent, r.window, r.made, retries)
      && (r.window.PushWillOverride() || r.queue == [])
    decreases (sent.EntryCount(); SLOTS - |sent.entries|)
  {
    if sent.PushWillOverride() || queue == [] {
    } else {
      var n, pending := FirstFlush(sent, reliable, ordered, queue, isOrdered, retries);
      var rest := FlushReliable(sent.Push(pending), reliable, ordered, queue[n..], isOrdered, retries);
      FlushKeepsPending(sent.Push(pending), reliable, ordered, queue[n..], isOrdered, retries);
      ExtendsStep(sent, rest.window, pending.packet, rest.made, retries);
    }
  }

  /** The packets are numbered consecutively from `id`, acknowledge the two rings, and fit. */
  ghost predicate MadeFrom(id: u16, reliable: Window<()>, ordered: Window<Packet>, isOrdered: bool, made: seq<Packet>)
  {
    && |made| <= SLOTS
    && forall i :: 0 <= i < |made| ==>
         && made[i] == ReliablePacket(WrappingAdd(id, i), reliable, ordered, isOrdered, made[i].messages)
         && PACKET_HEADER_LEN + DataLen(made[i].messages) <= MAX_PACKET_LEN
  }

  lemma MadeFromStep(id: u16, reliable: Window<()>, ordered: Window<Packet>, isOrdered: bool,
                     messages: seq<Msg>, made: seq<Packet>)
    requires DataLen(messages) <= MAX_PACKET_DATA_LEN && |made| < SLOTS
    requires MadeFrom(WrappingAdd(id, 1), reliable, ordered, isOrdered, made)
    ensures MadeFrom(id, reliable, ordered, isOrdered,
                     [ReliablePacket(id, reliable, ordered, isOrdered, messages)] + made)
  {
    var all := [ReliablePacket(id, reliable, ordered, isOrdered, messages)] + made;
    forall i | 1 <= i < |all|
      ensures all[i] == ReliablePacket(WrappingAdd(id, i), reliable, ordered, isOrdered, all[i].messages)
    {
      assert WrappingAdd(id, i) == WrappingAdd(WrappingAdd(id, 1), i - 1);
      assert all[i] == made[i - 1];
    }
  }

  /** Every packet of a flush is numbered consecutively and fits, with its checksum, into the buffer. */
  lemma {:induction false} FlushMakes(
      sent: Window<Pending>, reliable: Window<()>, ordered: Window<Packet>,
      queue: seq<Msg>, isOrdered: bool, retries: usize)
    requires IsRing(sent) && IsRing(reliable) && IsRing(ordered)
    ensures MadeFrom(sent.Next(), reliable, ordered, isOrdered,
                     FlushReliable(sent, reliable, ordered, queue, isOrdered, retries).made)
    decreases (sent.EntryCount(); SLOTS - |sent.entries|)
  {
    if sent.PushWillOverride() || queue == [] {
    } else {
      var n, pending := FirstFlush(sent, reliable, ordered, queue, isOrdered, retries);
      var rest := FlushReliable(sent.Push(pending), reliable, ordered, queue[n..], isOrdered, retries);
      FlushMakes(sent.Push(pending), reliable, ordered, queue[n..], isOrdered, retries);
      MadeFromStep(sent.Next(), reliable, ordered, isOrdered, queue[..n], rest.made);
    }
  }

  /** The acknowledgement names exactly the ids the two rings hold. */
  ghost predicate Acknowledges(ack: PacketAck, reliable: Window<()>, ordered: Window<Packet>) {
    && ack.reliableNewest == reliable.newest && ack.orderedNewest == ordered.newest
    && forall k: u16 ::
         && (Acked(ack.reliableNewest, ack.reliableBits, k) <==> k in reliable.entries)
         && (Acked(ack.orderedNewest, ack.orderedBits, k) <==> k in ordered.entries)
  }

  lemma NewAckAcknowledges(id: u16, reliable: Window<()>, ordered: Window<Packet>)
    requires IsRing(reliable) && IsRing(ordered)
    ensures Acknowledges(NewAck(id, reliable, ordered), reliable, ordered)
  {
    hide AckBits, Has;
    forall k: u16
      ensures Acked(reliable.newest, AckBits(reliable), k) <==> k in reliable.entries
      ensures Acked(ordered.newest, AckBits(ordered), k) <==> k in ordered.entries
    {
      if WrappingSub(reliable.newest, k) < 32 {
        AckBitsAreKeys(reliable, WrappingSub(reliable.newest, k));
      }
      if WrappingSub(ordered.newest, k) < 32 {
        AckBitsAreKeys(ordered, WrappingSub(ordered.newest, k));
      }
    }
  }

  /**
   * Every packet of a flush belongs to its stream, has the next id of that stream, across any number of
   * wraps, and acknowledges exactly what the two receive rings hold.
   */
  lemma FlushedPacket(
      sent: Window<Pending>, reliable: Window<()>, ordered: Window<Packet>,
      queue: seq<Msg>, isOrdered: bool, retries: usize, top: int, i: nat)
    requires IsRing(sent) && IsRing(reliable) && IsRing(ordered) && sent.newest == Wire(top)
    requires i < |FlushReliable(sent, reliable, ordered, queue, isOrdered, retries).made|
    ensures var p := FlushReliable(sent, reliable, ordered, queue, isOrdered, retries).made[i];
      && p.reliable && p.ordered == isOrdered
      && p.ack.sequenceId == Wire(top + 1 + i)
      && Acknowledges(p.ack, reliable, ordered)
  {
    hide FlushReliable, AckBits, Acknowledges;
    FlushMakes(sent, reliable, ordered, queue, isOrdered, retries);
    NewAckAcknowledges(WrappingAdd(sent.Next(), i), reliable, ordered);
    assert WrappingAdd(sent.Next(), i) == Wire(top + 1 + i);
  }

  /**
   * Every packet takes as many messages as fit: the message after its last one, whether in the next
   * packet or still queued in `rest`, would not fit any more.
   */
  ghost predicate Greedy(made: seq<Packet>, rest: seq<Msg>) {
    made == [] || (IsFull(made[0], Contents(made[1..]) + rest) && Greedy(made[1..], rest))
  }

  /** The first of the messages that follow does not fit into the packet any more. */
  predicate IsFull(packet: Packet, next: seq<Msg>) {
    next != [] ==> DataLen(packet.messages) + |next[0]| > MAX_PACKET_DATA_LEN
  }

  lemma GreedyStep(packet: Packet, made: seq<Packet>, rest: seq<Msg>)
    requires Greedy(made, rest)
    requires IsFull(packet, Contents(made) + rest)
    ensures Greedy([packet] + made, rest)
  {
    assert ([packet] + made)[1..] == made;
  }

  /** The first message left behind by the greedy choice does not fit. */
  lemma FirstLeft(queue: seq<Msg>, available: nat)
    ensures var n := FittingCount(queue, available);
      n < |queue| ==> DataLen(queue[..n]) + |queue[n]| > available
  {
    var n := FittingCount(queue, available);
    if n < |queue| {
      FittingIsMaximal(queue, available, n + 1);
      assert queue[..n + 1] == queue[..n] + [queue[n]];
      DataLenAppend(queue[..n], queue[n]);
    }
  }

  lemma {:induction false} DataLenAppend(messages: seq<Msg>, m: Msg)
    ensures DataLen(messages + [m]) == DataLen(messages) + |m|
  {
    if messages == [] {
      assert [m][1..] == [];
    } else {
      DataLenAppend(messages[1..], m);
      assert (messages + [m])[1..] == messages[1..] + [m];
    }
  }

  lemma {:induction false} FlushIsGreedy(
      sent: Window<Pending>, reliable: Window<()>, ordered: Window<Packet>,
      queue: seq<Msg>, isOrdered: bool, retries: usize)
    requires IsRing(sent) && IsRing(reliable) && IsRing(ordered)
    ensures var r := FlushReliable(sent, reliable, ordered, queue, isOrdered, retries);
      Greedy(r.made, r.queue)
    decreases (sent.EntryCount(); SLOTS - |sent.entries|)
  {
    hide Greedy, AckBits, DataLen;
    if sent.PushWillOverride() || queue == [] {
      assert Greedy([], queue) by { NoPacketsGreedy(queue); }
    } else {
      var n, pending := FirstFlush(sent, reliable, ordered, queue, isOrdered, retries);
      var rest := FlushReliable(sent.Push(pending), reliable, ordered, queue[n..], isOrdered, retries);
      FlushIsGreedy(sent.Push(pending), reliable, ordered, queue[n..], isOrdered, retries);
      FlushKeepsMessages(sent.Push(pending), reliable, ordered, queue[n..], isOrdered, retries);
      FirstLeft(queue, MAX_PACKET_DATA_LEN);
      GreedyStep(pending.packet, rest.made, rest.queue);
    }
  }

  lemma NoPacketsGreedy(rest: seq<Msg>)
    ensures Greedy([], rest)
  {
  }

  /** One round of the unreliable flush loop, after which `before` has been made. */
  lemma FlushUnreliableStep(id: u16, reliable: Window<()>, ordered: Window<Packet>, queue: seq<Msg>, before: seq<Packet>)
    requires IsRing(reliable) && IsRing(ordered)
    requires Sendable(queue) && queue != []
    ensures
      var n := FittingCount(queue, MAX_PACKET_DATA_LEN);
      var packet := Packet(NewAck(id, reliable, ordered), false, false, queue[..n]);
      && 0 < n && Sendable(queue[n..])
      && var now, rest := FlushUnreliable(id, reliable, ordered, queue),
                          FlushUnreliable(WrappingAdd(id, 1), reliable, ordered, queue[n..]);
      && (before + [packet]) + rest == before + now
      && Advance(WrappingAdd(id, 1), |rest|) == Advance(id, |now|)
  {
    hide FlushUnreliable, FittingCount, Sendable;
    FirstFits(queue);
    FirstUnreliable(id, reliable, ordered, queue);
    var n := FittingCount(queue, MAX_PACKET_DATA_LEN);
    var packet := Packet(NewAck(id, reliable, ordered), false, false, queue[..n]);
    Regroup(before, packet, FlushUnreliable(WrappingAdd(id, 1), reliable, ordered, queue[n..]));
  }

  lemma FirstUnreliable(id: u16, reliable: Window<()>, ordered: Window<Packet>, queue: seq<Msg>)
    requires IsRing(reliable) && IsRing(ordered)
    requires Sendable(queue) && queue != []
    requires var n := FittingCount(queue, MAX_PACKET_DATA_LEN); 0 < n && Sendable(queue[n..])
    ensures var n := FittingCount(queue, MAX_PACKET_DATA_LEN);
      FlushUnreliable(id, reliable, ordered, queue)
      == [Packet(NewAck(id, reliable, ordered), false, false, queue[..n])]
         + FlushUnreliable(WrappingAdd(id, 1), reliable, ordered, queue[n..])
  {
    hide FittingCount, Sendable, AckBits;
  }

  lemma Regroup<T>(before: seq<T>, x: T, rest: seq<T>)
    ensures (before + [x]) + rest == before + ([x] + rest)
    ensures |[x] + rest| == 1 + |rest|
  {
  }

  /** The unreliable flush carries exactly the greedy split, so no order-preserving split needs fewer packets. */
  lemma {:induction false} FlushUnreliableIsOptimal(id: u16, reliable: Window<()>, ordered: Window<Packet>,
                                                    queue: seq<Msg>, other: seq<seq<Msg>>)
    requires IsRing(reliable) && IsRing(ordered)
    requires Sendable(queue) && IsSplit(other, queue)
    ensures var made := FlushUnreliable(id, reliable, ordered, queue);
      && |made| <= |other|
      && Contents(made) == queue
      && forall p :: p in made ==> DataLen(p.messages) <= MAX_PACKET_DATA_LEN
  {
    FlushUnreliableIsSplit(id, reliable, ordered, queue);
    SplitIsOptimal(queue, other);
  }

  lemma {:induction false} FlushUnreliableIsSplit(id: u16, reliable: Window<()>, ordered: Window<Packet>, queue: seq<Msg>)
    requires IsRing(reliable) && IsRing(ordered)
    requires Sendable(queue)
    ensures var made := FlushUnreliable(id, reliable, ordered, queue);
      && |made| == |Split(queue)|
      && Contents(made) == queue
      && forall p :: p in made ==>
           && !p.reliable && !p.ordered && DataLen(p.messages) <= MAX_PACKET_DATA_LEN
           && p.ack == NewAck(p.ack.sequenceId, reliable, ordered)
    decreases |queue|
  {
    if queue != [] {
      var n := FittingCount(queue, MAX_PACKET_DATA_LEN);
      var made, rest := FlushUnreliable(id, reliable, ordered, queue),
                        FlushUnreliable(WrappingAdd(id, 1), reliable, ordered, queue[n..]);
      FittingIsMaximal(queue, MAX_PACKET_DATA_LEN, n);
      FlushUnreliableIsSplit(WrappingAdd(id, 1), reliable, ordered, queue[n..]);
      assert rest + [] == rest;
      ContentsCons(made[0], rest, queue, n, []);
    }
  }

  lemma {:induction false} FlushUnreliableIsGreedy(id: u16, reliable: Window<()>, ordered: Window<Packet>, queue: seq<Msg>)
    requires IsRing(reliable) && IsRing(ordered) && Sendable(queue)
    ensures Greedy(FlushUnreliable(id, reliable, ordered, queue), [])
    decreases |queue|
  {
    hide Greedy, AckBits, DataLen, FlushUnreliable, Sendable, FittingCount;
    if queue == [] {
      NothingUnreliable(id, reliable, ordered);
      NoPacketsGreedy([]);
    } else {
      FirstFits(queue);
      FirstUnreliable(id, reliable, ordered, queue);
      var n := FittingCount(queue, MAX_PACKET_DATA_LEN);
      var packet := Packet(NewAck(id, reliable, ordered), false, false, queue[..n]);
      var rest := FlushUnreliable(WrappingAdd(id, 1), reliable, ordered, queue[n..]);
      FlushUnreliableIsGreedy(WrappingAdd(id, 1), reliable, ordered, queue[n..]);
      FlushUnreliableIsSplit(WrappingAdd(id, 1), reliable, ordered, queue[n..]);
      FirstLeft(queue, MAX_PACKET_DATA_LEN);
      assert Contents(rest) + [] == queue[n..];
      GreedyStep(packet, rest, []);
    }
  }

  lemma NothingUnreliable(id: u16, reliable: Window<()>, ordered: Window<Packet>)
    requires IsRing(reliable) && IsRing(ordered)
    ensures Sendable([]) && FlushUnreliable(id, reliable, ordered, []) == []
  {
  }

  /** An unreliable packet acknowledges the same, and belongs to neither reliable stream. */
  lemma UnreliablePacket(id: u16, reliable: Window<()>, ordered: Window<Packet>, queue: seq<Msg>, p: Packet)
    requires IsRing(reliable) && IsRing(ordered) && Sendable(queue)
    requires p in FlushUnreliable(id, reliable, ordered, queue)
    ensures !p.reliable && !p.ordered && Acknowledges(p.ack, reliable, ordered)
  {
    hide AckBits, FlushUnreliable, Acknowledges, Split;
    FlushUnreliableIsSplit(id, reliable, ordered, queue);
    NewAckAcknowledges(p.ack.sequenceId, reliable, ordered);
  }

  /** Unreliable packets are numbered consecutively, across any number of wraps. */
  lemma UnreliableIds(id: u16, reliable: Window<()>, ordered: Window<Packet>, queue: seq<Msg>, i: nat)
    requires IsRing(reliable) && IsRing(ordered) && Sendable(queue)
    requires i < |FlushUnreliable(id, reliable, ordered, queue)|
    ensures FlushUnreliable(id, reliable, ordered, queue)[i].ack.sequenceId == Wire(id + i)
  {
    hide Advance, FlushUnreliable;
    UnreliableAdvances(id, reliable, ordered, queue, i);
    AdvanceIsWire(id, i);
  }

  lemma {:induction false} UnreliableAdvances(id: u16, reliable: Window<()>, ordered: Window<Packet>, queue: seq<Msg>, i: nat)
    requires IsRing(reliable) && IsRing(ordered) && Sendable(queue)
    requires i < |FlushUnreliable(id, reliable, ordered, queue)|
    ensures FlushUnreliable(id, reliable, ordered, queue)[i].ack.sequenceId == Advance(id, i)
    decreases i
  {
    hide AckBits, FittingCount;
    if i > 0 {
      var n := FittingCount(queue, MAX_PACKET_DATA_LEN);
      FlushUnreliableStep(id, reliable, ordered, queue, []);
      UnreliableAdvances(WrappingAdd(id, 1), reliable, ordered, queue[n..], i - 1);
    }
  }

  /**
   * Sending what is due: one retry is used up per transmission, and a packet without retries left
   * is dropped. The counter is decremented before it is compared with zero.
   */
  function ResendIfNeeded(due: set<u16>): (u16, Pending) -> Kept<Pending, Packet> {
    (k: u16, pending: Pending) =>
      if k in due then
        var left := if pending.remainingRetries == 0 then 0xFFFF_FFFF_FFFF_FFFF else pending.remainingRetries - 1;
        Kept(left != 0, pending.(remainingRetries := left), [pending.packet])
      else Kept(true, pending, [])
  }
}

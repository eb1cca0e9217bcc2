/** The invariant of two communicators and the network between them, kept by every allowed step. */
module Invariants {
  import opened Packets
  import opened Packing
  import opened Endpoints
  import opened Network
  import opened Streams
  import opened Delivery

  /** The ids a node has accepted on its two incoming streams, and the newest of each. */
  datatype Accepted = Accepted(reliable: set<int>, reliableTop: int, ordered: set<int>, orderedTop: int)

  function AcceptedBy(n: Node): Accepted {
    Accepted(n.reliableAccepted, n.reliableTop, n.orderedAccepted, n.orderedTop)
  }

  /** Both halves of the acknowledgement in `c` name only ids accepted by its maker. */
  ghost predicate CopySound(c: Copy, acc: Accepted) {
    && AckSound(c.packet.ack.reliableNewest, c.packet.ack.reliableBits, c.ackReliable, acc.reliable, acc.reliableTop)
    && AckSound(c.packet.ack.orderedNewest, c.packet.ack.orderedBits, c.ackOrdered, acc.ordered, acc.orderedTop)
  }

  ghost predicate AllSound(copies: seq<Copy>, acc: Accepted) {
    forall c :: c in copies ==> CopySound(c, acc)
  }

  ghost predicate Written(messages: seq<Msg>, written: seq<Msg>) {
    forall m :: m in messages ==> m in written
  }

  /** The copies kept beside the unreliable packets that wait for sending. */
  ghost predicate QueuedInv(queued: seq<Copy>, packets: seq<Packet>, written: seq<Msg>) {
    && |queued| == |packets|
    && forall i :: 0 <= i < |queued| ==>
         && queued[i].packet == packets[i]
         && !queued[i].packet.reliable
         && Written(queued[i].packet.messages, written)
  }

  /** A reliable copy on the network is a packet of the log; an unreliable one carries written messages. */
  ghost predicate Genuine(c: Copy, reliableLog: seq<Copy>, orderedLog: seq<Copy>, written: seq<Msg>) {
    if !c.packet.reliable then Written(c.packet.messages, written)
    else if c.packet.ordered then 0 <= c.id < |orderedLog| && orderedLog[c.id] == c
    else 0 <= c.id < |reliableLog| && reliableLog[c.id] == c
  }

  ghost predicate NetInv(net: set<Copy>, acc: Accepted, reliableLog: seq<Copy>, orderedLog: seq<Copy>, written: seq<Msg>) {
    forall c :: c in net ==> CopySound(c, acc) && Genuine(c, reliableLog, orderedLog, written)
  }

  /** What a node keeps about itself. */
  ghost predicate NodeInv(n: Node) {
    && Sendable(n.ep.unreliableQueue) && Sendable(n.ep.reliableQueue) && Sendable(n.ep.orderedQueue)
    && Written(n.ep.unreliableQueue, n.unreliableWritten)
    && QueuedInv(n.queued, n.ep.unreliablePackets, n.unreliableWritten)
    && AllSound(n.reliableLog, AcceptedBy(n))
    && AllSound(n.orderedLog, AcceptedBy(n))
    && AllSound(n.queued, AcceptedBy(n))
    && NetInv(n.net, AcceptedBy(n), n.reliableLog, n.orderedLog, n.unreliableWritten)
    && n.unorderedRead + n.ep.unorderedRecv == LogContents(n.arrived)
    && multiset(n.unorderedRead) + multiset(n.ep.unorderedRecv) == n.reliableDelivered + n.unreliableDelivered
  }

  /** The reliable unordered stream from `x` to `y`. */
  ghost predicate ReliableInv(x: Node, y: Node) {
    && LogInv(x.reliableLog, false)
    && HoldsLog(x.ep.reliableSent, x.reliableLog)
    && NothingLost(x.ep.reliableSent, x.reliableLog, y.reliableAccepted)
    && LogContents(x.reliableLog) + x.ep.reliableQueue == x.reliableWritten
    && ReceiveInv(y.ep.reliableReceived, y.reliableAccepted, y.reliableTop)
    && y.reliableTop < |x.reliableLog|
    && y.reliableDelivered == SumAccepted(x.reliableLog, y.reliableAccepted, |x.reliableLog|)
  }

  /** The ordered stream from `x` to `y`. */
  ghost predicate OrderedInv(x: Node, y: Node) {
    && LogInv(x.orderedLog, true)
    && HoldsLog(x.ep.orderedSent, x.orderedLog)
    && NothingLost(x.ep.orderedSent, x.orderedLog, y.orderedAccepted)
    && LogContents(x.orderedLog) + x.ep.orderedQueue == x.orderedWritten
    && ReceiveInv(y.ep.orderedReceived, y.orderedAccepted, y.orderedTop)
    && ReleasedInv(y.ep.orderedReceived, y.ep.readHead, y.orderedAccepted, y.orderedTop, y.readTop,
                   x.orderedLog, y.orderedRead + y.ep.orderedRecv)
  }

  /** What `y` got unreliably was written unreliably by `x`. */
  ghost predicate UnreliableInv(x: Node, y: Node) {
    forall m :: m in y.unreliableDelivered ==> m in x.unreliableWritten
  }

  ghost predicate StreamsInv(x: Node, y: Node) {
    ReliableInv(x, y) && OrderedInv(x, y) && UnreliableInv(x, y)
  }

  ghost predicate Inv(x: Node, y: Node) {
    && NodeInv(x) && NodeInv(y)
    && StreamsInv(x, y) && StreamsInv(y, x)
  }

  lemma InvInitially(configX: Config, configY: Config)
    ensures Inv(NewNode(configX), NewNode(configY))
  {
    var x, y := NewNode(configX), NewNode(configY);
    forall id | InUse(x.ep.reliableSent, -1, id) || InUse(x.ep.orderedReceived, -1, id) ensures false {
    }
  }

  // ---------------------------------------------------------------- user actions

  lemma WriteKeeps(n: Node, p: Node, m: Msg)
    requires Inv(n, p) && |m| <= MAX_PACKET_DATA_LEN
    ensures Inv(n.Write(m), p)
  {
    hide LogInv, HoldsLog, NothingLost, ReceiveInv, ReleasedInv, AllSound, NetInv, QueuedInv, LogContents, SumAccepted;
    NetGrows(n.net, AcceptedBy(n), n.reliableLog, [], n.orderedLog, [], n.unreliableWritten, [m]);
    assert n.reliableLog + [] == n.reliableLog && n.orderedLog + [] == n.orderedLog;
    QueuedGrows(n.queued, n.ep.unreliablePackets, n.unreliableWritten, [m]);
  }

  lemma WriteReliableKeeps(n: Node, p: Node, m: Msg)
    requires Inv(n, p) && |m| <= MAX_PACKET_DATA_LEN
    ensures Inv(n.WriteReliable(m), p)
  {
    hide LogInv, HoldsLog, NothingLost, ReceiveInv, ReleasedInv, AllSound, NetInv, QueuedInv, LogContents, SumAccepted;
    assert LogContents(n.reliableLog) + (n.ep.reliableQueue + [m]) == n.reliableWritten + [m];
  }

  lemma WriteOrderedKeeps(n: Node, p: Node, m: Msg)
    requires Inv(n, p) && |m| <= MAX_PACKET_DATA_LEN
    ensures Inv(n.WriteOrdered(m), p)
  {
    hide LogInv, HoldsLog, NothingLost, ReceiveInv, ReleasedInv, AllSound, NetInv, QueuedInv, LogContents, SumAccepted;
    assert LogContents(n.orderedLog) + (n.ep.orderedQueue + [m]) == n.orderedWritten + [m];
  }

  lemma ReadOrderedKeeps(n: Node, p: Node)
    requires Inv(n, p)
    ensures Inv(n.ReadOrdered(), p)
  {
    hide LogInv, HoldsLog, NothingLost, ReceiveInv, ReleasedInv, AllSound, NetInv, QueuedInv, LogContents, SumAccepted;
    if n.ep.orderedRecv != [] {
      MoveHead(n.orderedRead, n.ep.orderedRecv);
    }
  }

  lemma ReadUnorderedKeeps(n: Node, p: Node)
    requires Inv(n, p)
    ensures Inv(n.ReadUnordered(), p)
  {
    hide LogInv, HoldsLog, NothingLost, ReceiveInv, ReleasedInv, AllSound, NetInv, QueuedInv, LogContents, SumAccepted;
    if n.ep.unorderedRecv != [] {
      MoveHead(n.unorderedRead, n.ep.unorderedRecv);
      assert multiset(n.unorderedRead + [n.ep.unorderedRecv[0]]) + multiset(n.ep.unorderedRecv[1..])
          == multiset((n.unorderedRead + [n.ep.unorderedRecv[0]]) + n.ep.unorderedRecv[1..]);
    }
  }

  /** Longer logs and more written messages keep every copy genuine. */
  lemma NetGrows(net: set<Copy>, acc: Accepted, reliableLog: seq<Copy>, moreReliable: seq<Copy>,
                 orderedLog: seq<Copy>, moreOrdered: seq<Copy>, written: seq<Msg>, moreWritten: seq<Msg>)
    requires NetInv(net, acc, reliableLog, orderedLog, written)
    ensures NetInv(net, acc, reliableLog + moreReliable, orderedLog + moreOrdered, written + moreWritten)
  {
    assert reliableLog + [] == reliableLog && orderedLog + [] == orderedLog;
  }

  lemma QueuedGrows(queued: seq<Copy>, packets: seq<Packet>, written: seq<Msg>, more: seq<Msg>)
    requires QueuedInv(queued, packets, written)
    ensures QueuedInv(queued, packets, written + more)
  {
  }
}

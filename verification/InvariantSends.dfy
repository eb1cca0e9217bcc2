/** The steps of `send` keep the invariant. */
module InvariantSends {
  import opened WrappingIds
  import opened Windows
  import opened Packets
  import opened Packing
  import opened Flushing
  import opened Network
  import opened Streams
  import opened Delivery
  import opened Invariants

  /** An acknowledgement built now is sound. */
  lemma FreshCopySound(n: Node, c: Copy)
    requires ReceiveInv(n.ep.reliableReceived, n.reliableAccepted, n.reliableTop)
    requires ReceiveInv(n.ep.orderedReceived, n.orderedAccepted, n.orderedTop)
    requires c.packet.ack == NewAck(c.packet.ack.sequenceId, n.ep.reliableReceived, n.ep.orderedReceived)
    requires c.ackReliable == n.reliableTop && c.ackOrdered == n.orderedTop
    ensures CopySound(c, AcceptedBy(n))
  {
    FreshAck(n.ep.reliableReceived, n.reliableAccepted, n.reliableTop);
    FreshAck(n.ep.orderedReceived, n.orderedAccepted, n.orderedTop);
  }

  /** Copies made now, stamped with what the node has accepted, are sound. */
  lemma FreshCopiesSound(n: Node, packets: seq<Packet>, first: int)
    requires ReceiveInv(n.ep.reliableReceived, n.reliableAccepted, n.reliableTop)
    requires ReceiveInv(n.ep.orderedReceived, n.orderedAccepted, n.orderedTop)
    requires forall i :: 0 <= i < |packets| ==>
      packets[i].ack == NewAck(packets[i].ack.sequenceId, n.ep.reliableReceived, n.ep.orderedReceived)
    ensures AllSound(n.Stamp(packets, first), AcceptedBy(n))
  {
    var copies := n.Stamp(packets, first);
    forall c | c in copies ensures CopySound(c, AcceptedBy(n)) {
      var i :| 0 <= i < |copies| && copies[i] == c;
      assert packets[i] == c.packet;
      FreshCopySound(n, c);
    }
  }

  lemma SoundTogether(left: seq<Copy>, right: seq<Copy>, acc: Accepted)
    requires AllSound(left, acc) && AllSound(right, acc)
    ensures AllSound(left + right, acc)
  {
  }

  /** New unreliable packets join the ones that wait. */
  lemma QueuedAppend(n: Node, packets: seq<Packet>, written: seq<Msg>)
    requires QueuedInv(n.queued, n.ep.unreliablePackets, written)
    requires forall i :: 0 <= i < |packets| ==> !packets[i].reliable && Written(packets[i].messages, written)
    ensures QueuedInv(n.queued + n.Stamp(packets, -1), n.ep.unreliablePackets + packets, written)
  {
  }

  lemma HeartbeatKeeps(n: Node, p: Node)
    requires Inv(n, p) && n.ep.Valid()
    ensures Inv(n.WriteHeartbeat(), p)
  {
    hide LogInv, HoldsLog, NothingLost, ReceiveInv, ReleasedInv, AllSound, NetInv, QueuedInv, LogContents, SumAccepted;
    var packet := Heartbeat(NewAck(n.ep.unreliableId, n.ep.reliableReceived, n.ep.orderedReceived));
    FreshCopiesSound(n, [packet], -1);
    SoundTogether(n.queued, n.Stamp([packet], -1), AcceptedBy(n));
    QueuedAppend(n, [packet], n.unreliableWritten);
  }

  lemma MaybeHeartbeatKeeps(n: Node, p: Node)
    requires Inv(n, p) && n.ep.Valid()
    ensures Inv(n.MaybeHeartbeat(), p)
  {
    hide Inv;
    HeartbeatKeeps(n, p);
    FlagKeeps(n, p);
    FlagKeeps(n.WriteHeartbeat(), p);
  }

  lemma FlagKeeps(n: Node, p: Node)
    requires Inv(n, p)
    ensures Inv(n.(ep := n.ep.(duplicate := false)), p)
    ensures Inv(n.(ep := n.ep.(duplicate := true)), p)
  {
    hide LogInv, HoldsLog, NothingLost, ReceiveInv, ReleasedInv, AllSound, NetInv, QueuedInv, LogContents, SumAccepted;
  }

  /** A flush leaves a part of the queue. */
  lemma RestOfQueue(sent: Window<Pending>, reliable: Window<()>, ordered: Window<Packet>,
                    queue: seq<Msg>, isOrdered: bool, retries: usize)
    requires IsRing(sent) && IsRing(reliable) && IsRing(ordered) && Sendable(queue)
    ensures Sendable(FlushReliable(sent, reliable, ordered, queue, isOrdered, retries).queue)
  {
    var r := FlushReliable(sent, reliable, ordered, queue, isOrdered, retries);
    FlushKeepsMessages(sent, reliable, ordered, queue, isOrdered, retries);
    forall m | m in r.queue ensures m in queue {
      assert m in Contents(r.made) + r.queue;
    }
  }

  /** The packets of a flush carry sound acknowledgements and consecutive ids. */
  lemma FlushedSound(n: Node, sent: Window<Pending>, queue: seq<Msg>, isOrdered: bool, retries: usize, log: seq<Copy>)
    requires IsRing(sent)
    requires ReceiveInv(n.ep.reliableReceived, n.reliableAccepted, n.reliableTop)
    requires ReceiveInv(n.ep.orderedReceived, n.orderedAccepted, n.orderedTop)
    requires AllSound(log, AcceptedBy(n))
    ensures var made := FlushReliable(sent, n.ep.reliableReceived, n.ep.orderedReceived, queue, isOrdered, retries).made;
      && Numbered(n.Stamp(made, |log|), made, |log|)
      && AllSound(log + n.Stamp(made, |log|), AcceptedBy(n))
  {
    var made := FlushReliable(sent, n.ep.reliableReceived, n.ep.orderedReceived, queue, isOrdered, retries).made;
    FlushMakes(sent, n.ep.reliableReceived, n.ep.orderedReceived, queue, isOrdered, retries);
    FreshCopiesSound(n, made, |log|);
    SoundTogether(log, n.Stamp(made, |log|), AcceptedBy(n));
  }

  lemma FlushReliableKeeps(n: Node, p: Node)
    requires Inv(n, p) && n.ep.Valid()
    ensures Inv(n.FlushReliableQueue(), p)
  {
    hide LogInv, HoldsLog, NothingLost, ReceiveInv, ReleasedInv, AllSound, NetInv, QueuedInv, LogContents, SumAccepted;
    hide FlushReliable, Numbered, Sendable;
    var e, retries := n.ep, n.config.maxReliableRetries;
    var r := FlushReliable(e.reliableSent, e.reliableReceived, e.orderedReceived, e.reliableQueue, false, retries);
    var made := n.Stamp(r.made, |n.reliableLog|);
    FlushedSound(n, e.reliableSent, e.reliableQueue, false, retries, n.reliableLog);
    FlushKeeps(e.reliableSent, n.reliableLog, p.reliableAccepted, n.reliableWritten,
               e.reliableReceived, e.orderedReceived, e.reliableQueue, false, retries, made);
    RestOfQueue(e.reliableSent, e.reliableReceived, e.orderedReceived, e.reliableQueue, false, retries);
    NetGrows(n.net, AcceptedBy(n), n.reliableLog, made, n.orderedLog, [], n.unreliableWritten, []);
    assert n.orderedLog + [] == n.orderedLog && n.unreliableWritten + [] == n.unreliableWritten;
    AcceptedInLog(p.ep.reliableReceived, p.reliableAccepted, p.reliableTop, |n.reliableLog|);
    SumOfLongerLog(n.reliableLog, made, p.reliableAccepted);
  }

  lemma AcceptedInLog<T>(received: Window<T>, accepted: set<int>, top: int, length: nat)
    requires ReceiveInv(received, accepted, top) && top < length
    ensures forall id :: id in accepted ==> id < length
  {
  }

  lemma FlushOrderedKeeps(n: Node, p: Node)
    requires Inv(n, p) && n.ep.Valid()
    ensures Inv(n.FlushOrderedQueue(), p)
  {
    hide LogInv, HoldsLog, NothingLost, ReceiveInv, ReleasedInv, AllSound, NetInv, QueuedInv, LogContents, SumAccepted;
    hide FlushReliable, Numbered, Sendable;
    var e, retries := n.ep, n.config.maxOrderedRetries;
    var r := FlushReliable(e.orderedSent, e.reliableReceived, e.orderedReceived, e.orderedQueue, true, retries);
    var made := n.Stamp(r.made, |n.orderedLog|);
    FlushedSound(n, e.orderedSent, e.orderedQueue, true, retries, n.orderedLog);
    FlushKeeps(e.orderedSent, n.orderedLog, p.orderedAccepted, n.orderedWritten,
               e.reliableReceived, e.orderedReceived, e.orderedQueue, true, retries, made);
    RestOfQueue(e.orderedSent, e.reliableReceived, e.orderedReceived, e.orderedQueue, true, retries);
    NetGrows(n.net, AcceptedBy(n), n.reliableLog, [], n.orderedLog, made, n.unreliableWritten, []);
    assert n.reliableLog + [] == n.reliableLog && n.unreliableWritten + [] == n.unreliableWritten;
    ReleasedGrows(p.ep.orderedReceived, p.ep.readHead, p.orderedAccepted, p.orderedTop, p.readTop,
                  n.orderedLog, made, p.orderedRead + p.ep.orderedRecv);
  }

  /** Later packets do not change what has been released. */
  lemma ReleasedGrows(received: Window<Packet>, head: u16, accepted: set<int>, top: int, h: int,
                      log: seq<Copy>, more: seq<Copy>, released: seq<Msg>)
    requires ReleasedInv(received, head, accepted, top, h, log, released)
    ensures ReleasedInv(received, head, accepted, top, h, log + more, released)
  {
    assert (log + more)[..h] == log[..h];
  }

  lemma FlushUnreliableKeeps(n: Node, p: Node)
    requires Inv(n, p) && n.ep.Valid()
    ensures Inv(n.FlushUnreliableQueue(), p)
  {
    hide LogInv, HoldsLog, NothingLost, ReceiveInv, ReleasedInv, AllSound, NetInv, QueuedInv, LogContents, SumAccepted;
    hide FlushUnreliable, AckBits, Split, InUse;
    var e := n.ep;
    var made := FlushUnreliable(e.unreliableId, e.reliableReceived, e.orderedReceived, e.unreliableQueue);
    FlushUnreliableIsSplit(e.unreliableId, e.reliableReceived, e.orderedReceived, e.unreliableQueue);
    FreshCopiesSound(n, made, -1);
    SoundTogether(n.queued, n.Stamp(made, -1), AcceptedBy(n));
    forall i, m | 0 <= i < |made| && m in made[i].messages ensures m in n.unreliableWritten {
      InContents(made, i, m);
    }
    QueuedAppend(n, made, n.unreliableWritten);
  }

  /** What a send ring puts on the network are packets of its log. */
  lemma ResentIsLogged(sent: Window<Pending>, log: seq<Copy>, due: set<u16>, c: Copy, isOrdered: bool)
    requires HoldsLog(sent, log) && LogInv(log, isOrdered) && c in Resent(sent, log, due)
    ensures 0 <= c.id < |log| && log[c.id] == c && c.packet.reliable && c.packet.ordered == isOrdered
  {
    var k :| k in sent.entries && k in due && c == CopyOf(sent, log, k);
    var id := KeyHasId(sent, |log| - 1, k);
    Distance(|log| - 1, id);
    assert log[id] == c;
  }

  /** Only packets of the logs and waiting unreliable packets are put on the network. */
  lemma NetAfterTransmit(n: Node, reliableDue: set<u16>, orderedDue: set<u16>)
    requires HoldsLog(n.ep.reliableSent, n.reliableLog) && LogInv(n.reliableLog, false)
    requires HoldsLog(n.ep.orderedSent, n.orderedLog) && LogInv(n.orderedLog, true)
    requires AllSound(n.reliableLog, AcceptedBy(n)) && AllSound(n.orderedLog, AcceptedBy(n)) && AllSound(n.queued, AcceptedBy(n))
    requires QueuedInv(n.queued, n.ep.unreliablePackets, n.unreliableWritten)
    requires NetInv(n.net, AcceptedBy(n), n.reliableLog, n.orderedLog, n.unreliableWritten)
    ensures NetInv(n.Transmit(reliableDue, orderedDue).net, AcceptedBy(n), n.reliableLog, n.orderedLog, n.unreliableWritten)
  {
    forall c | c in n.Transmit(reliableDue, orderedDue).net && c !in n.net
      ensures CopySound(c, AcceptedBy(n)) && Genuine(c, n.reliableLog, n.orderedLog, n.unreliableWritten)
    {
      if c in Resent(n.ep.reliableSent, n.reliableLog, reliableDue) {
        ResentIsLogged(n.ep.reliableSent, n.reliableLog, reliableDue, c, false);
        assert c in n.reliableLog;
      } else if c in Resent(n.ep.orderedSent, n.orderedLog, orderedDue) {
        ResentIsLogged(n.ep.orderedSent, n.orderedLog, orderedDue, c, true);
        assert c in n.orderedLog;
      } else {
        assert c in n.queued;
      }
    }
  }

  lemma {:induction false} OutputIsDue(sent: Window<Pending>, due: set<u16>, c: nat, packet: Packet)
    requires c <= 65536
    ensures packet in sent.Output(ResendIfNeeded(due), c) <==>
      exists k :: k in sent.entries && k in due && WrappingSub(sent.newest, k) < c && sent.entries[k].packet == packet
  {
    if c > 0 {
      OutputIsDue(sent, due, c - 1, packet);
      var k0 := WrappingSub(sent.newest, c - 1);
      assert forall k: u16 :: WrappingSub(sent.newest, k) == c - 1 <==> k == k0;
    }
  }

  /** The copies added to the network carry exactly the packets handed to the socket. */
  lemma NetCarriesTransmitted(n: Node, reliableDue: set<u16>, orderedDue: set<u16>, packet: Packet)
    requires IsRing(n.ep.reliableSent) && IsRing(n.ep.orderedSent)
    requires QueuedInv(n.queued, n.ep.unreliablePackets, n.unreliableWritten)
    ensures packet in n.ep.Transmitted(reliableDue, orderedDue) <==>
      exists c: Copy :: c.packet == packet
        && (c in Resent(n.ep.reliableSent, n.reliableLog, reliableDue)
            || c in Resent(n.ep.orderedSent, n.orderedLog, orderedDue) || c in n.queued)
  {
    OutputIsDue(n.ep.reliableSent, reliableDue, 32, packet);
    OutputIsDue(n.ep.orderedSent, orderedDue, 32, packet);
    ResentPackets(n.ep.reliableSent, n.reliableLog, reliableDue, packet);
    ResentPackets(n.ep.orderedSent, n.orderedLog, orderedDue, packet);
    if packet in n.ep.unreliablePackets {
      var i :| 0 <= i < |n.ep.unreliablePackets| && n.ep.unreliablePackets[i] == packet;
      assert n.queued[i].packet == packet;
    }
  }

  lemma ResentPackets(sent: Window<Pending>, log: seq<Copy>, due: set<u16>, packet: Packet)
    requires IsRing(sent)
    ensures (exists c: Copy :: c in Resent(sent, log, due) && c.packet == packet) <==>
      exists k :: k in sent.entries && k in due && WrappingSub(sent.newest, k) < 32 && sent.entries[k].packet == packet
  {
    if c: Copy :| c in Resent(sent, log, due) && c.packet == packet {
      var k :| k in sent.entries && k in due && c == CopyOf(sent, log, k);
      assert sent.entries[k].packet == packet;
    }
    if k :| k in sent.entries && k in due && sent.entries[k].packet == packet {
      assert CopyOf(sent, log, k) in Resent(sent, log, due);
    }
  }

  lemma TransmitKeeps(n: Node, p: Node, reliableDue: set<u16>, orderedDue: set<u16>)
    requires Inv(n, p)
    requires !LastRetry(n.ep.reliableSent, reliableDue) && !LastRetry(n.ep.orderedSent, orderedDue)
    ensures Inv(n.Transmit(reliableDue, orderedDue), p)
  {
    hide LogInv, HoldsLog, NothingLost, ReceiveInv, ReleasedInv, AllSound, NetInv, QueuedInv, LogContents, SumAccepted;
    hide Resent, LastRetry;
    NetAfterTransmit(n, reliableDue, orderedDue);
    ResendKeeps(n.ep.reliableSent, n.reliableLog, p.reliableAccepted, reliableDue);
    ResendKeeps(n.ep.orderedSent, n.orderedLog, p.orderedAccepted, orderedDue);
    NoneQueued(n.unreliableWritten, AcceptedBy(n));
  }

  lemma NoneQueued(written: seq<Msg>, acc: Accepted)
    ensures QueuedInv([], [], written) && AllSound([], acc)
  {
  }

  /** Rings are rings in every state that satisfies the invariant. */
  lemma InvIsReady(n: Node, p: Node)
    requires Inv(n, p)
    ensures n.ep.Valid() && Sendable(n.ep.unreliableQueue)
  {
  }

  lemma PrepareKeeps(n: Node, p: Node)
    requires Inv(n, p) && n.ep.Valid() && Sendable(n.ep.unreliableQueue)
    ensures Inv(n.Prepare(), p)
  {
    hide Inv;
    var n1 := n.MaybeHeartbeat();
    MaybeHeartbeatKeeps(n, p);
    InvIsReady(n1, p);
    FlushReliableKeeps(n1, p);
    var n2 := n1.FlushReliableQueue();
    InvIsReady(n2, p);
    FlushOrderedKeeps(n2, p);
    var n3 := n2.FlushOrderedQueue();
    InvIsReady(n3, p);
    FlushUnreliableKeeps(n3, p);
  }

  lemma SendKeeps(n: Node, p: Node, reliableDue: set<u16>, orderedDue: set<u16>)
    requires Inv(n, p) && n.ep.Valid() && Sendable(n.ep.unreliableQueue)
    requires AllowedAt(n, p, Send(reliableDue, orderedDue))
    ensures Inv(n.Send(reliableDue, orderedDue), p)
  {
    hide Inv;
    PrepareKeeps(n, p);
    TransmitKeeps(n.Prepare(), p, reliableDue, orderedDue);
  }
}

/** Delivering any copy from the network keeps the invariant, whatever has happened before. */
module InvariantDelivers {
  import opened WrappingIds
  import opened Windows
  import opened Packets
  import opened Packing
  import opened Flushing
  import opened Endpoints
  import opened Network
  import opened Streams
  import opened Delivery
  import opened Invariants
  import opened InvariantSends

  /** `later` has accepted at least what `now` has. */
  ghost predicate AcceptsMore(now: Accepted, later: Accepted) {
    && now.reliable <= later.reliable && now.reliableTop <= later.reliableTop
    && now.ordered <= later.ordered && now.orderedTop <= later.orderedTop
  }

  lemma SoundStays(copies: seq<Copy>, now: Accepted, later: Accepted)
    requires AllSound(copies, now) && AcceptsMore(now, later)
    ensures AllSound(copies, later)
  {
    forall c | c in copies ensures CopySound(c, later) {
      CopyStaysSound(c, now, later);
    }
  }

  lemma CopyStaysSound(c: Copy, now: Accepted, later: Accepted)
    requires CopySound(c, now) && AcceptsMore(now, later)
    ensures CopySound(c, later)
  {
  }

  lemma NetStaysSound(net: set<Copy>, now: Accepted, later: Accepted, reliableLog: seq<Copy>, orderedLog: seq<Copy>, written: seq<Msg>)
    requires NetInv(net, now, reliableLog, orderedLog, written) && AcceptsMore(now, later)
    ensures NetInv(net, later, reliableLog, orderedLog, written)
  {
    forall c | c in net ensures CopySound(c, later) {
      CopyStaysSound(c, now, later);
    }
  }

  lemma LossStays(sent: Window<Pending>, log: seq<Copy>, now: set<int>, later: set<int>)
    requires NothingLost(sent, log, now) && now <= later
    ensures NothingLost(sent, log, later)
  {
  }

  /** Applying the acknowledgement of a copy that is not too late only removes accepted packets. */
  lemma AcknowledgeKeeps(n: Node, p: Node, c: Copy)
    requires Inv(n, p) && CopySound(c, AcceptedBy(p))
    requires |n.reliableLog| - 1 - c.ackReliable <= 65504
    requires |n.orderedLog| - 1 - c.ackOrdered <= 65504
    ensures Inv(n.(ep := n.ep.Acknowledge(c.packet.ack)), p)
  {
    hide LogInv, HoldsLog, NothingLost, ReceiveInv, ReleasedInv, AllSound, NetInv, QueuedInv, LogContents, SumAccepted;
    hide Packets.Acknowledge, AckSound;
    var ack := c.packet.ack;
    AckKeeps(n.ep.reliableSent, n.reliableLog, p.reliableAccepted, p.reliableTop, ack.reliableNewest, ack.reliableBits, c.ackReliable);
    OrderedTopInLog(n, p);
    AckKeeps(n.ep.orderedSent, n.orderedLog, p.orderedAccepted, p.orderedTop, ack.orderedNewest, ack.orderedBits, c.ackOrdered);
  }

  lemma OrderedTopInLog(x: Node, y: Node)
    requires OrderedInv(x, y)
    ensures y.orderedTop < |x.orderedLog|
  {
  }

  /** New messages for the user come last, after everything that has been handed over before. */
  lemma HandedOverLast(n: Node, c: Copy)
    requires n.unorderedRead + n.ep.unorderedRecv == LogContents(n.arrived)
    ensures n.unorderedRead + (n.ep.unorderedRecv + c.packet.messages) == LogContents(n.arrived + [c])
  {
    LogContentsAppend(n.arrived, c);
    AppendTwice(n.unorderedRead, n.ep.unorderedRecv, c.packet.messages);
  }

  /** They are counted on the side they came from. */
  lemma UnorderedGrows(read: seq<Msg>, waiting: seq<Msg>, reliable: multiset<Msg>, unreliable: multiset<Msg>, more: seq<Msg>)
    requires multiset(read) + multiset(waiting) == reliable + unreliable
    ensures multiset(read) + multiset(waiting + more) == reliable + (unreliable + multiset(more))
    ensures multiset(read) + multiset(waiting + more) == (reliable + multiset(more)) + unreliable
  {
    var r, w, m := multiset(read), multiset(waiting), multiset(more);
    assert multiset(waiting + more) == w + m;
    assert r + (w + m) == (r + w) + m;
    assert (reliable + unreliable) + m == reliable + (unreliable + m) == (reliable + m) + unreliable;
  }

  /** An unreliable packet hands its messages to the user, once for every delivery. */
  lemma UnreliableKeeps(n: Node, p: Node, c: Copy)
    requires Inv(n, p)
    requires Written(c.packet.messages, p.unreliableWritten)
    ensures Inv(n.(ep := n.ep.(unorderedRecv := n.ep.unorderedRecv + c.packet.messages),
                   arrived := n.arrived + [c],
                   unreliableDelivered := n.unreliableDelivered + multiset(c.packet.messages)), p)
  {
    hide LogInv, HoldsLog, NothingLost, ReceiveInv, ReleasedInv, AllSound, NetInv, QueuedInv, LogContents, SumAccepted;
    hide Sendable;
    var after := n.unreliableDelivered + multiset(c.packet.messages);
    forall m | m in after ensures m in p.unreliableWritten {
      assert m in n.unreliableDelivered || m in multiset(c.packet.messages);
    }
    HandedOverLast(n, c);
    UnorderedGrows(n.unorderedRead, n.ep.unorderedRecv, n.reliableDelivered, n.unreliableDelivered, c.packet.messages);
  }

  /** A reliable packet that is neither a duplicate nor too old has not been accepted before. */
  lemma AcceptReliableKeeps(n: Node, p: Node, c: Copy)
    requires ReliableInv(p, n) && n.ep.Valid()
    requires 0 <= c.id < |p.reliableLog| && p.reliableLog[c.id] == c && c.packet.reliable && !c.packet.ordered
    requires Classifiable(n.reliableTop, c.id)
    requires !n.ep.IsDuplicate(c.packet) && !n.ep.IsTooOld(c.packet)
    ensures c.id !in n.reliableAccepted
    ensures ReceiveInv(n.ep.AcceptReliable(c.packet).reliableReceived, n.reliableAccepted + {c.id}, Max(n.reliableTop, c.id))
  {
    Classified(n.ep.reliableReceived, n.reliableAccepted, n.reliableTop, p.ep.reliableSent, p.reliableLog, c.id);
    AcceptKeeps(n.ep.reliableReceived, n.reliableAccepted, n.reliableTop, c.id, ());
  }

  lemma ReliableKeeps(n: Node, p: Node, c: Copy)
    requires Inv(n, p) && n.ep.Valid()
    requires 0 <= c.id < |p.reliableLog| && p.reliableLog[c.id] == c && c.packet.reliable && !c.packet.ordered
    requires Classifiable(n.reliableTop, c.id)
    requires !n.ep.IsDuplicate(c.packet) && !n.ep.IsTooOld(c.packet)
    ensures Inv(n.(ep := n.ep.AcceptReliable(c.packet),
                   arrived := n.arrived + [c],
                   reliableAccepted := n.reliableAccepted + {c.id}, reliableTop := Max(n.reliableTop, c.id),
                   reliableDelivered := n.reliableDelivered + multiset(c.packet.messages)), p)
  {
    hide LogInv, HoldsLog, NothingLost, ReceiveInv, ReleasedInv, AllSound, NetInv, QueuedInv, LogContents, SumAccepted;
    hide Sendable, Classifiable;
    var accepted, top := n.reliableAccepted + {c.id}, Max(n.reliableTop, c.id);
    var now, later := AcceptedBy(n), Accepted(accepted, top, n.orderedAccepted, n.orderedTop);
    AcceptReliableKeeps(n, p, c);
    LossStays(p.ep.reliableSent, p.reliableLog, n.reliableAccepted, accepted);
    SumAccepts(p.reliableLog, n.reliableAccepted, c.id, |p.reliableLog|);
    SoundStays(n.reliableLog, now, later);
    SoundStays(n.orderedLog, now, later);
    SoundStays(n.queued, now, later);
    NetStaysSound(n.net, now, later, n.reliableLog, n.orderedLog, n.unreliableWritten);
    HandedOverLast(n, c);
    UnorderedGrows(n.unorderedRead, n.ep.unorderedRecv, n.reliableDelivered, n.unreliableDelivered, c.packet.messages);
  }

  lemma AppendTwice<T>(a: seq<T>, b: seq<T>, c: seq<T>)
    ensures (a + b) + c == a + (b + c)
  {
  }

  /** The ordered receive ring and the released messages after one more packet has been accepted. */
  lemma AcceptOrderedKeeps(n: Node, p: Node, c: Copy)
    requires OrderedInv(p, n) && n.ep.Valid()
    requires 0 <= c.id < |p.orderedLog| && p.orderedLog[c.id] == c && c.packet.reliable && c.packet.ordered
    requires Classifiable(n.orderedTop, c.id)
    requires !n.ep.IsDuplicate(c.packet) && !n.ep.IsTooOld(c.packet)
    ensures c.id !in n.orderedAccepted
    ensures var e, accepted, top := n.ep.AcceptOrdered(c.packet), n.orderedAccepted + {c.id}, Max(n.orderedTop, c.id);
      && ReceiveInv(e.orderedReceived, accepted, top)
      && ReleasedInv(e.orderedReceived, e.readHead, accepted, top, FirstMissing(accepted, n.readTop, top),
                     p.orderedLog, n.orderedRead + e.orderedRecv)
  {
    hide Classifiable, FirstMissing, Drain;
    var accepted, top, log := n.orderedAccepted + {c.id}, Max(n.orderedTop, c.id), p.orderedLog;
    var w := n.ep.orderedReceived.Insert(Wire(c.id), c.packet);
    Classified(n.ep.orderedReceived, n.orderedAccepted, n.orderedTop, p.ep.orderedSent, log, c.id);
    AcceptKeeps(n.ep.orderedReceived, n.orderedAccepted, n.orderedTop, c.id, c.packet);
    InsertById(n.ep.orderedReceived, n.orderedTop, c.id, c.packet);
    WindowIsTight(p.ep.orderedSent, log, n.orderedAccepted, n.orderedTop);
    DrainKeeps(w, n.ep.readHead, accepted, top, n.readTop, log, n.orderedRead + n.ep.orderedRecv);
    AppendTwice(n.orderedRead, n.ep.orderedRecv, Drain(w, w.KeysFrom(32), n.ep.readHead).messages);
  }

  lemma OrderedKeeps(n: Node, p: Node, c: Copy)
    requires Inv(n, p) && n.ep.Valid()
    requires 0 <= c.id < |p.orderedLog| && p.orderedLog[c.id] == c && c.packet.reliable && c.packet.ordered
    requires Classifiable(n.orderedTop, c.id)
    requires !n.ep.IsDuplicate(c.packet) && !n.ep.IsTooOld(c.packet)
    ensures var accepted, top := n.orderedAccepted + {c.id}, Max(n.orderedTop, c.id);
      Inv(n.(ep := n.ep.AcceptOrdered(c.packet), orderedAccepted := accepted, orderedTop := top,
             readTop := FirstMissing(accepted, n.readTop, top)), p)
  {
    hide LogInv, HoldsLog, NothingLost, ReceiveInv, ReleasedInv, AllSound, NetInv, QueuedInv, LogContents, SumAccepted;
    hide Sendable, Classifiable, FirstMissing, Drain;
    var accepted, top := n.orderedAccepted + {c.id}, Max(n.orderedTop, c.id);
    var now, later := AcceptedBy(n), Accepted(n.reliableAccepted, n.reliableTop, accepted, top);
    AcceptOrderedKeeps(n, p, c);
    LossStays(p.ep.orderedSent, p.orderedLog, n.orderedAccepted, accepted);
    SoundStays(n.reliableLog, now, later);
    SoundStays(n.orderedLog, now, later);
    SoundStays(n.queued, now, later);
    NetStaysSound(n.net, now, later, n.reliableLog, n.orderedLog, n.unreliableWritten);
  }

  /** Whatever copy arrives, as long as neither it nor its acknowledgement is too late. */
  lemma DeliverKeeps(n: Node, p: Node, c: Copy)
    requires Inv(n, p) && n.ep.Valid() && Sendable(n.ep.unreliableQueue)
    requires AllowedAt(n, p, Action.Deliver(c))
    ensures Inv(n.Deliver(c), p)
  {
    hide Inv, Classifiable;
    CopyOnNet(n, p, c);
    var acked := n.(ep := n.ep.Acknowledge(c.packet.ack));
    if !c.packet.reliable {
      var taken := n.(ep := n.ep.(unorderedRecv := n.ep.unorderedRecv + c.packet.messages),
                      arrived := n.arrived + [c],
                      unreliableDelivered := n.unreliableDelivered + multiset(c.packet.messages));
      UnreliableKeeps(n, p, c);
      AcknowledgeKeeps(taken, p, c);
    } else if n.ep.IsDuplicate(c.packet) || n.ep.IsTooOld(c.packet) {
      FlagKeeps(n, p);
    } else {
      AcknowledgeKeeps(n, p, c);
      if c.packet.ordered {
        OrderedKeeps(acked, p, c);
      } else {
        ReliableKeeps(acked, p, c);
      }
    }
  }

  lemma CopyOnNet(n: Node, p: Node, c: Copy)
    requires Inv(n, p) && c in p.net
    ensures CopySound(c, AcceptedBy(p)) && Genuine(c, p.reliableLog, p.orderedLog, p.unreliableWritten)
  {
  }
}

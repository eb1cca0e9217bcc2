/**
 * More of what every run keeps: a packet that has not been sent still has all its retries, and only
 * sent packets are accepted, each with its acknowledgement applied.
 */
module Histories {
  import opened WrappingIds
  import opened Windows
  import opened Packets
  import opened Packing
  import opened Flushing
  import opened Endpoints
  import opened Network
  import opened Streams
  import opened Delivery
  import opened Invariants
  import opened InvariantSends
  import opened InvariantDelivers
  import opened Safety

  /** A pending packet that is not on the network has all its retries; a last retry alone is never used. */
  ghost predicate RetriesInv(sent: Window<Pending>, log: seq<Copy>, net: set<Copy>, retries: usize) {
    && (forall id :: InUse(sent, |log| - 1, id) && 0 <= id && log[id] !in net ==>
          sent.entries[Wire(id)].remainingRetries == retries)
    && (retries == 1 ==> forall c :: c in log ==> c !in net)
  }

  /** No id named by an acknowledgement made at `r` is pending. */
  ghost predicate Cleared(newest: u16, bits: nat, r: int, sent: Window<Pending>, top: int) {
    forall id :: r - 32 < id <= r && InUse(sent, top, id) ==> !Acked(newest, bits, Wire(id))
  }

  /** Neither half of the acknowledgement in `c` has anything left to remove at `y`. */
  ghost predicate Applied(c: Copy, y: Node) {
    && Cleared(c.packet.ack.reliableNewest, c.packet.ack.reliableBits, c.ackReliable, y.ep.reliableSent, |y.reliableLog| - 1)
    && Cleared(c.packet.ack.orderedNewest, c.packet.ack.orderedBits, c.ackOrdered, y.ep.orderedSent, |y.orderedLog| - 1)
  }

  /** Only packets on the network have been accepted, and their acknowledgements have been applied. */
  ghost predicate ArrivedInv(log: seq<Copy>, net: set<Copy>, accepted: set<int>, y: Node) {
    forall id :: id in accepted ==> 0 <= id < |log| && log[id] in net && Applied(log[id], y)
  }

  ghost predicate Retries(n: Node) {
    && RetriesInv(n.ep.reliableSent, n.reliableLog, n.net, n.config.maxReliableRetries)
    && RetriesInv(n.ep.orderedSent, n.orderedLog, n.net, n.config.maxOrderedRetries)
  }

  /** The two streams from `x` to `y`. */
  ghost predicate Arrived(x: Node, y: Node) {
    && ArrivedInv(x.reliableLog, x.net, y.reliableAccepted, y)
    && ArrivedInv(x.orderedLog, x.net, y.orderedAccepted, y)
  }

  ghost predicate HistoryInv(x: Node, y: Node) {
    && Retries(x) && Retries(y)
    && Arrived(x, y) && Arrived(y, x)
  }

  // ---------------------------------------------------------------- the sending side moves forward

  /** No id up to `top` that was not pending is pending later. */
  ghost predicate NoneReturns(sent: Window<Pending>, top: int, later: Window<Pending>, laterTop: int) {
    forall id :: id <= top && InUse(later, laterTop, id) ==> InUse(sent, top, id)
  }

  /** Logs, network and what the user wrote only grow, and no packet becomes pending again. */
  ghost predicate Forward(n: Node, later: Node) {
    && later.config == n.config
    && n.net <= later.net
    && n.reliableLog <= later.reliableLog && n.orderedLog <= later.orderedLog
    && n.reliableWritten <= later.reliableWritten && n.orderedWritten <= later.orderedWritten
    && NoneReturns(n.ep.reliableSent, |n.reliableLog| - 1, later.ep.reliableSent, |later.reliableLog| - 1)
    && NoneReturns(n.ep.orderedSent, |n.orderedLog| - 1, later.ep.orderedSent, |later.orderedLog| - 1)
  }

  lemma ForwardTwice(n: Node, middle: Node, later: Node)
    requires Forward(n, middle) && Forward(middle, later)
    ensures Forward(n, later)
  {
    hide InUse;
  }

  /** Nothing about sending has changed, except for what is pending no longer. */
  ghost predicate OnlyShrinks(n: Node, later: Node) {
    && later.config == n.config && later.net == n.net
    && later.reliableLog == n.reliableLog && later.orderedLog == n.orderedLog
    && n.reliableWritten <= later.reliableWritten && n.orderedWritten <= later.orderedWritten
    && Subring(n.ep.reliableSent, later.ep.reliableSent)
    && Subring(n.ep.orderedSent, later.ep.orderedSent)
  }

  ghost predicate Subring(sent: Window<Pending>, later: Window<Pending>) {
    forall k :: k in later.entries ==> k in sent.entries && later.entries[k] == sent.entries[k]
  }

  lemma ShrunkIsForward(n: Node, later: Node)
    requires OnlyShrinks(n, later)
    ensures Forward(n, later)
    ensures Retries(n) ==> Retries(later)
  {
  }

  lemma PushRetries(sent: Window<Pending>, log: seq<Copy>, net: set<Copy>, retries: usize, pending: Pending, c: Copy)
    requires IsRing(sent) && sent.newest == Wire(|log| - 1)
    requires RetriesInv(sent, log, net, retries) && pending.remainingRetries == retries && c !in net
    ensures RetriesInv(sent.Push(pending), log + [c], net, retries)
    ensures NoneReturns(sent, |log| - 1, sent.Push(pending), |log|)
  {
    NextKey(|log| - 1);
    InsertById(sent, |log| - 1, |log|, pending);
    var next := sent.Push(pending);
    forall id | InUse(next, |log|, id) && 0 <= id && (log + [c])[id] !in net
      ensures next.entries[Wire(id)].remainingRetries == retries
    {
      assert id == |log| || InUse(sent, |log| - 1, id);
    }
  }

  lemma {:induction false} FlushRetries(
      sent: Window<Pending>, log: seq<Copy>, net: set<Copy>,
      reliable: Window<()>, ordered: Window<Packet>, queue: seq<Msg>, isOrdered: bool, retries: usize, made: seq<Copy>)
    requires IsRing(reliable) && IsRing(ordered)
    requires IsRing(sent) && sent.newest == Wire(|log| - 1)
    requires RetriesInv(sent, log, net, retries)
    requires Numbered(made, FlushReliable(sent, reliable, ordered, queue, isOrdered, retries).made, |log|)
    requires forall i :: 0 <= i < |made| ==> made[i] !in net
    ensures var r := FlushReliable(sent, reliable, ordered, queue, isOrdered, retries);
      && RetriesInv(r.window, log + made, net, retries)
      && NoneReturns(sent, |log| - 1, r.window, |log| + |made| - 1)
    decreases |made|
  {
    hide RetriesInv, NoneReturns, FlushReliable;
    if sent.PushWillOverride() || queue == [] {
      NothingFlushed(sent, reliable, ordered, queue, isOrdered, retries);
      assert log + made == log;
      NoneReturnsNow(sent, |log| - 1);
    } else {
      var n, pending := FirstFlush(sent, reliable, ordered, queue, isOrdered, retries);
      var next := sent.Push(pending);
      var r := FlushReliable(next, reliable, ordered, queue[n..], isOrdered, retries);
      NumberedTail(made, pending.packet, r.made, |log|);
      PushRetries(sent, log, net, retries, pending, made[0]);
      NextKey(|log| - 1);
      forall i | 0 <= i < |made[1..]| ensures made[1..][i] !in net {
        assert made[1..][i] == made[i + 1];
      }
      FlushRetries(next, log + [made[0]], net, reliable, ordered, queue[n..], isOrdered, retries, made[1..]);
      MoveHead(log, made);
      NoneReturnsTwice(sent, |log| - 1, next, |log|, r.window, |log| + |made| - 1);
    }
  }

  lemma NothingFlushed(sent: Window<Pending>, reliable: Window<()>, ordered: Window<Packet>,
                       queue: seq<Msg>, isOrdered: bool, retries: usize)
    requires IsRing(sent) && IsRing(reliable) && IsRing(ordered)
    requires sent.PushWillOverride() || queue == []
    ensures FlushReliable(sent, reliable, ordered, queue, isOrdered, retries) == Flushed(sent, queue, [])
  {
  }

  lemma NoneReturnsNow(sent: Window<Pending>, top: int)
    ensures NoneReturns(sent, top, sent, top)
  {
  }

  lemma NoneReturnsTwice(sent: Window<Pending>, top: int, next: Window<Pending>, nextTop: int, later: Window<Pending>, laterTop: int)
    requires top <= nextTop
    requires NoneReturns(sent, top, next, nextTop) && NoneReturns(next, nextTop, later, laterTop)
    ensures NoneReturns(sent, top, later, laterTop)
  {
  }

  /** A packet made now has not been on the network. */
  lemma NewCopiesNotOnNet(n: Node, made: seq<Copy>, isOrdered: bool)
    requires NetInv(n.net, AcceptedBy(n), n.reliableLog, n.orderedLog, n.unreliableWritten)
    requires forall i :: 0 <= i < |made| ==>
      && made[i].id >= (if isOrdered then |n.orderedLog| else |n.reliableLog|)
      && made[i].packet.reliable && made[i].packet.ordered == isOrdered
    ensures forall i :: 0 <= i < |made| ==> made[i] !in n.net
  {
    hide CopySound, Written;
  }

  lemma FlushReliableForward(n: Node, p: Node)
    requires Inv(n, p) && n.ep.Valid() && Retries(n)
    ensures Forward(n, n.FlushReliableQueue()) && Retries(n.FlushReliableQueue())
  {
    hide Inv, HoldsLog, NodeInv, FlushReliable, RetriesInv, NoneReturns, InUse;
    SendFacts(n, p);
    var e, retries := n.ep, n.config.maxReliableRetries;
    var r := FlushReliable(e.reliableSent, e.reliableReceived, e.orderedReceived, e.reliableQueue, false, retries);
    var made := n.Stamp(r.made, |n.reliableLog|);
    FlushMakes(e.reliableSent, e.reliableReceived, e.orderedReceived, e.reliableQueue, false, retries);
    NewCopiesNotOnNet(n, made, false);
    FlushRetries(e.reliableSent, n.reliableLog, n.net, e.reliableReceived, e.orderedReceived, e.reliableQueue, false, retries, made);
    NoneReturnsNow(e.orderedSent, |n.orderedLog| - 1);
  }

  lemma FlushOrderedForward(n: Node, p: Node)
    requires Inv(n, p) && n.ep.Valid() && Retries(n)
    ensures Forward(n, n.FlushOrderedQueue()) && Retries(n.FlushOrderedQueue())
  {
    hide Inv, HoldsLog, NodeInv, FlushReliable, RetriesInv, NoneReturns, InUse;
    SendFacts(n, p);
    var e, retries := n.ep, n.config.maxOrderedRetries;
    var r := FlushReliable(e.orderedSent, e.reliableReceived, e.orderedReceived, e.orderedQueue, true, retries);
    var made := n.Stamp(r.made, |n.orderedLog|);
    FlushMakes(e.orderedSent, e.reliableReceived, e.orderedReceived, e.orderedQueue, true, retries);
    NewCopiesNotOnNet(n, made, true);
    FlushRetries(e.orderedSent, n.orderedLog, n.net, e.reliableReceived, e.orderedReceived, e.orderedQueue, true, retries, made);
    NoneReturnsNow(e.reliableSent, |n.reliableLog| - 1);
  }

  /** What the sending side of a node satisfies. */
  lemma SendFacts(n: Node, p: Node)
    requires Inv(n, p)
    ensures HoldsLog(n.ep.reliableSent, n.reliableLog) && HoldsLog(n.ep.orderedSent, n.orderedLog)
    ensures IsRing(n.ep.reliableSent) && n.ep.reliableSent.newest == Wire(|n.reliableLog| - 1)
    ensures IsRing(n.ep.orderedSent) && n.ep.orderedSent.newest == Wire(|n.orderedLog| - 1)
    ensures LogInv(n.reliableLog, false) && LogInv(n.orderedLog, true)
    ensures QueuedInv(n.queued, n.ep.unreliablePackets, n.unreliableWritten)
    ensures NetInv(n.net, AcceptedBy(n), n.reliableLog, n.orderedLog, n.unreliableWritten)
    ensures AllSound(n.reliableLog, AcceptedBy(n)) && AllSound(n.orderedLog, AcceptedBy(n))
  {
    hide LogInv, NothingLost, ReceiveInv, ReleasedInv, LogContents, SumAccepted, AllSound, QueuedInv, NetInv;
    HeldRing(n.ep.reliableSent, n.reliableLog);
    HeldRing(n.ep.orderedSent, n.orderedLog);
    hide HoldsLog;
  }

  lemma HeldRing(sent: Window<Pending>, log: seq<Copy>)
    requires HoldsLog(sent, log)
    ensures IsRing(sent) && sent.newest == Wire(|log| - 1)
  {
  }

  // ---------------------------------------------------------------- transmitting

  /** A packet that is due goes onto the network; a packet made with one retry never is. */
  lemma ResendRetries(sent: Window<Pending>, log: seq<Copy>, net: set<Copy>, later: set<Copy>, retries: usize, due: set<u16>)
    requires HoldsLog(sent, log) && RetriesInv(sent, log, net, retries) && !LastRetry(sent, due)
    requires net <= later && Resent(sent, log, due) <= later
    requires forall c :: c in log && c in later ==> c in net || c in Resent(sent, log, due)
    ensures RetriesInv(sent.Retain(ResendIfNeeded(due)), log, later, retries)
    ensures NoneReturns(sent, |log| - 1, sent.Retain(ResendIfNeeded(due)), |log| - 1)
  {
    var after := sent.Retain(ResendIfNeeded(due));
    forall k | k in sent.entries && k in due
      ensures retries != 1
      ensures CopyOf(sent, log, k) in later
    {
      var id := KeyHasId(sent, |log| - 1, k);
      Distance(|log| - 1, id);
      assert CopyOf(sent, log, k) == log[id];
      assert CopyOf(sent, log, k) in Resent(sent, log, due);
      assert sent.entries[k].remainingRetries != 1;
    }
    forall id | InUse(after, |log| - 1, id) && 0 <= id && log[id] !in later
      ensures after.entries[Wire(id)].remainingRetries == retries
    {
      assert InUse(sent, |log| - 1, id);
      Distance(|log| - 1, id);
    }
  }

  lemma TransmitForward(n: Node, p: Node, reliableDue: set<u16>, orderedDue: set<u16>)
    requires Inv(n, p) && Retries(n)
    requires !LastRetry(n.ep.reliableSent, reliableDue) && !LastRetry(n.ep.orderedSent, orderedDue)
    ensures Forward(n, n.Transmit(reliableDue, orderedDue)) && Retries(n.Transmit(reliableDue, orderedDue))
  {
    hide Inv, HoldsLog, NodeInv, RetriesInv, NoneReturns, InUse, LastRetry, Resent, NetInv;
    SendFacts(n, p);
    var later := n.Transmit(reliableDue, orderedDue);
    forall c | c in n.reliableLog && c in later.net
      ensures c in n.net || c in Resent(n.ep.reliableSent, n.reliableLog, reliableDue)
    {
      if c in Resent(n.ep.orderedSent, n.orderedLog, orderedDue) {
        ResentIsLogged(n.ep.orderedSent, n.orderedLog, orderedDue, c, true);
      }
    }
    forall c | c in n.orderedLog && c in later.net
      ensures c in n.net || c in Resent(n.ep.orderedSent, n.orderedLog, orderedDue)
    {
      if c in Resent(n.ep.reliableSent, n.reliableLog, reliableDue) {
        ResentIsLogged(n.ep.reliableSent, n.reliableLog, reliableDue, c, false);
      }
    }
    ResendRetries(n.ep.reliableSent, n.reliableLog, n.net, later.net, n.config.maxReliableRetries, reliableDue);
    ResendRetries(n.ep.orderedSent, n.orderedLog, n.net, later.net, n.config.maxOrderedRetries, orderedDue);
  }

  lemma PrepareForward(n: Node, p: Node)
    requires Inv(n, p) && n.ep.Valid() && Sendable(n.ep.unreliableQueue) && Retries(n)
    ensures Forward(n, n.Prepare()) && Retries(n.Prepare())
  {
    hide Inv, Forward, Retries;
    var n1 := n.MaybeHeartbeat();
    MaybeHeartbeatKeeps(n, p);
    SameRings(n, n1);
    InvIsReady(n1, p);
    FlushReliableForward(n1, p);
    FlushReliableKeeps(n1, p);
    var n2 := n1.FlushReliableQueue();
    InvIsReady(n2, p);
    FlushOrderedForward(n2, p);
    FlushOrderedKeeps(n2, p);
    var n3 := n2.FlushOrderedQueue();
    InvIsReady(n3, p);
    SameRings(n3, n3.FlushUnreliableQueue());
    ForwardTwice(n, n1, n2);
    ForwardTwice(n, n2, n3);
    ForwardTwice(n, n3, n.Prepare());
  }

  lemma SameRings(n: Node, later: Node)
    requires later.config == n.config && later.net == n.net
    requires later.reliableLog == n.reliableLog && later.orderedLog == n.orderedLog
    requires n.reliableWritten <= later.reliableWritten && n.orderedWritten <= later.orderedWritten
    requires later.ep.reliableSent == n.ep.reliableSent && later.ep.orderedSent == n.ep.orderedSent
    ensures Forward(n, later) && (Retries(n) ==> Retries(later))
  {
    hide RetriesInv;
    ShrunkIsForward(n, later);
  }

  lemma SendForward(n: Node, p: Node, reliableDue: set<u16>, orderedDue: set<u16>)
    requires Inv(n, p) && n.ep.Valid() && Sendable(n.ep.unreliableQueue) && Retries(n)
    requires AllowedAt(n, p, Action.Send(reliableDue, orderedDue))
    ensures Forward(n, n.Send(reliableDue, orderedDue)) && Retries(n.Send(reliableDue, orderedDue))
  {
    hide Inv, Forward, Retries, LastRetry, Node.Prepare, Node.Transmit;
    PrepareForward(n, p);
    PrepareKeeps(n, p);
    TransmitForward(n.Prepare(), p, reliableDue, orderedDue);
    ForwardTwice(n, n.Prepare(), n.Prepare().Transmit(reliableDue, orderedDue));
  }

  lemma DeliverForward(n: Node, c: Copy)
    requires n.ep.Valid() && Retries(n)
    ensures Forward(n, n.Deliver(c)) && Retries(n.Deliver(c))
  {
    hide Forward, Retries, FirstMissing, Drain, Endpoint.IsDuplicate, Endpoint.IsTooOld, Endpoint.Valid, Window.Insert;
    ShrunkIsForward(n, n.Deliver(c));
  }

  /** Whatever a node does, its sending side moves forward. */
  lemma ActForward(n: Node, p: Node, action: Action)
    requires Inv(n, p) && n.ep.Valid() && Sendable(n.ep.unreliableQueue) && Retries(n)
    requires AllowedAt(n, p, action)
    ensures Forward(n, Act(n, action)) && Retries(Act(n, action))
  {
    hide Inv, Forward, Retries, Node.Deliver, Node.Send;
    match action {
      case Write(m) => SameRings(n, n.Write(m));
      case WriteReliable(m) => SameRings(n, n.WriteReliable(m));
      case WriteOrdered(m) => SameRings(n, n.WriteOrdered(m));
      case WriteHeartbeat => SameRings(n, n.WriteHeartbeat());
      case Send(reliableDue, orderedDue) => SendForward(n, p, reliableDue, orderedDue);
      case Deliver(c) => DeliverForward(n, c);
      case ReadOrdered => SameRings(n, n.ReadOrdered());
      case ReadUnordered => SameRings(n, n.ReadUnordered());
    }
  }

  // ---------------------------------------------------------------- the receiving side

  /** Every acknowledgement in a log of `x` was made before the newest packet of `y`. */
  lemma AcksInLogs(x: Node, y: Node)
    requires Inv(x, y)
    ensures forall c :: c in x.reliableLog || c in x.orderedLog ==> c.ackReliable < |y.reliableLog| && c.ackOrdered < |y.orderedLog|
  {
    hide LogInv, HoldsLog, NothingLost, ReceiveInv, LogContents, SumAccepted, NetInv, QueuedInv;
  }

  lemma AppliedStays(c: Copy, y: Node, later: Node)
    requires Applied(c, y) && Forward(y, later)
    requires c.ackReliable < |y.reliableLog| && c.ackOrdered < |y.orderedLog|
    ensures Applied(c, later)
  {
    hide InUse;
  }

  lemma ArrivedStays(log: seq<Copy>, more: seq<Copy>, net: set<Copy>, moreNet: set<Copy>, accepted: set<int>, y: Node, later: Node)
    requires ArrivedInv(log, net, accepted, y) && log <= more && net <= moreNet && Forward(y, later)
    requires forall c :: c in log ==> c.ackReliable < |y.reliableLog| && c.ackOrdered < |y.orderedLog|
    ensures ArrivedInv(more, moreNet, accepted, later)
  {
    hide Applied, Forward;
    forall id | id in accepted ensures 0 <= id < |more| && more[id] in moreNet && Applied(more[id], later) {
      AppliedStays(log[id], y, later);
    }
  }

  /** What is left of the rings once the acknowledgement of `c` has been applied. */
  lemma AckApplies(n: Node, later: Node, c: Copy)
    requires later.ep.reliableSent == n.ep.Acknowledge(c.packet.ack).reliableSent
    requires later.ep.orderedSent == n.ep.Acknowledge(c.packet.ack).orderedSent
    requires later.reliableLog == n.reliableLog && later.orderedLog == n.orderedLog
    ensures Applied(c, later)
  {
    hide Acked;
  }

  lemma AcceptFacts(n: Node, c: Copy)
    requires n.ep.Valid() && c.packet.reliable && !n.ep.IsDuplicate(c.packet) && !n.ep.IsTooOld(c.packet)
    ensures var later := n.Deliver(c);
      && later.ep.reliableSent == n.ep.Acknowledge(c.packet.ack).reliableSent
      && later.ep.orderedSent == n.ep.Acknowledge(c.packet.ack).orderedSent
      && later.reliableLog == n.reliableLog && later.orderedLog == n.orderedLog
      && later.reliableAccepted == n.reliableAccepted + (if c.packet.ordered then {} else {c.id})
      && later.orderedAccepted == n.orderedAccepted + (if c.packet.ordered then {c.id} else {})
  {
    hide FirstMissing, Drain, Endpoint.IsDuplicate, Endpoint.IsTooOld, Endpoint.Valid, Window.Insert, Packets.Acknowledge;
  }

  lemma OthersAcceptNothing(n: Node, action: Action)
    requires n.ep.Valid() && Sendable(n.ep.unreliableQueue)
    requires action.Deliver? ==>
      !action.copy.packet.reliable || n.ep.IsDuplicate(action.copy.packet) || n.ep.IsTooOld(action.copy.packet)
    ensures Act(n, action).reliableAccepted == n.reliableAccepted && Act(n, action).orderedAccepted == n.orderedAccepted
  {
    hide FirstMissing, Drain, Endpoint.IsDuplicate, Endpoint.IsTooOld, Endpoint.Read;
  }

  /** What a node accepts comes from the network, and brings its acknowledgement with it. */
  lemma ActArrives(n: Node, p: Node, action: Action)
    requires Inv(n, p) && n.ep.Valid() && Sendable(n.ep.unreliableQueue)
    requires AllowedAt(n, p, action) && Arrived(p, n) && Forward(n, Act(n, action))
    ensures Arrived(p, Act(n, action))
  {
    hide Inv, Forward, Applied, Classifiable, Act, Endpoint.IsDuplicate, Endpoint.IsTooOld, LastRetry, Node.Prepare;
    InvIsSymmetric(n, p);
    AcksInLogs(p, n);
    var later := Act(n, action);
    ArrivedStays(p.reliableLog, p.reliableLog, p.net, p.net, n.reliableAccepted, n, later);
    ArrivedStays(p.orderedLog, p.orderedLog, p.net, p.net, n.orderedAccepted, n, later);
    if action.Deliver? && action.copy.packet.reliable && !n.ep.IsDuplicate(action.copy.packet) && !n.ep.IsTooOld(action.copy.packet) {
      var c := action.copy;
      CopyOnNet(n, p, c);
      ActIsDeliver(n, c);
      AcceptFacts(n, c);
      AckApplies(n, later, c);
    } else {
      OthersAcceptNothing(n, action);
    }
  }

  lemma ActIsDeliver(n: Node, c: Copy)
    requires n.ep.Valid() && Sendable(n.ep.unreliableQueue)
    ensures Act(n, Action.Deliver(c)) == n.Deliver(c)
  {
  }

  // ---------------------------------------------------------------- runs

  lemma ActKeepsHistory(n: Node, p: Node, action: Action)
    requires Inv(n, p) && n.ep.Valid() && Sendable(n.ep.unreliableQueue)
    requires AllowedAt(n, p, action) && HistoryInv(n, p)
    ensures HistoryInv(Act(n, action), p)
  {
    hide Inv, Act, Retries, ArrivedInv, AllowedAt;
    ActForward(n, p, action);
    ActArrives(n, p, action);
    AcksInLogs(n, p);
    var later := Act(n, action);
    StandsStill(p);
    ArrivedStays(n.reliableLog, later.reliableLog, n.net, later.net, p.reliableAccepted, p, p);
    ArrivedStays(n.orderedLog, later.orderedLog, n.net, later.net, p.orderedAccepted, p, p);
  }

  lemma StandsStill(n: Node)
    ensures Forward(n, n)
  {
  }

  /** Both invariants of a pair. */
  ghost predicate FullInv(w: World) {
    WorldInv(w) && HistoryInv(w.a, w.b)
  }

  lemma FullStepKeeps(w: World, step: Step)
    requires FullInv(w) && Ready(w) && Allowed(w, step)
    ensures FullInv(Next(w, step))
  {
    hide Inv, Retries, Arrived, Act, AllowedAt;
    StepKeeps(w, step);
    if step.atA {
      ActKeepsHistory(w.a, w.b, step.action);
    } else {
      InvIsSymmetric(w.a, w.b);
      ActKeepsHistory(w.b, w.a, step.action);
    }
  }

  lemma {:induction false} FullRunKeeps(w: World, steps: seq<Step>, end: World)
    requires FullInv(w) && Runs(w, steps, end)
    ensures FullInv(end)
    decreases |steps|
  {
    hide FullInv;
    if steps != [] {
      FullStepKeeps(w, steps[0]);
      FullRunKeeps(Next(w, steps[0]), steps[1..], end);
    }
  }

  lemma FullInvInitially(configA: Config, configB: Config)
    ensures FullInv(Start(configA, configB))
  {
    InvInitially(configA, configB);
  }

  /** In every reachable state both invariants hold. */
  lemma ReachableFullInv(w: World)
    requires Reachable(w)
    ensures FullInv(w)
  {
    hide FullInv;
    var configA, configB, steps :| Runs(Start(configA, configB), steps, w);
    FullInvInitially(configA, configB);
    FullRunKeeps(Start(configA, configB), steps, w);
  }

  // ---------------------------------------------------------------- copies that are turned away

  /** The peer has accepted the packet that `c` is a copy of. */
  ghost predicate Taken(c: Copy, y: Node) {
    if c.packet.ordered then c.id in y.orderedAccepted else c.id in y.reliableAccepted
  }

  /** A copy that is turned away has been accepted before. */
  lemma TurnedAway(y: Node, x: Node, c: Copy)
    requires Inv(y, x) && c in x.net && c.packet.reliable
    requires Classifiable(if c.packet.ordered then y.orderedTop else y.reliableTop, c.id)
    requires y.ep.IsDuplicate(c.packet) || y.ep.IsTooOld(c.packet)
    ensures Taken(c, y)
  {
    hide NodeInv, Classifiable, ReliableInv, OrderedInv;
    CopyOnNet(y, x, c);
    if c.packet.ordered {
      OrderedTurnedAway(y, x, c);
    } else {
      ReliableTurnedAway(y, x, c);
    }
  }

  lemma ReliableTurnedAway(y: Node, x: Node, c: Copy)
    requires ReliableInv(x, y) && !c.packet.ordered
    requires 0 <= c.id < |x.reliableLog| && x.reliableLog[c.id] == c && Classifiable(y.reliableTop, c.id)
    requires y.ep.IsDuplicate(c.packet) || y.ep.IsTooOld(c.packet)
    ensures c.id in y.reliableAccepted
  {
    hide Classifiable, SumAccepted, LogContents;
    Classified(y.ep.reliableReceived, y.reliableAccepted, y.reliableTop, x.ep.reliableSent, x.reliableLog, c.id);
  }

  lemma OrderedTurnedAway(y: Node, x: Node, c: Copy)
    requires OrderedInv(x, y) && c.packet.ordered
    requires 0 <= c.id < |x.orderedLog| && x.orderedLog[c.id] == c && Classifiable(y.orderedTop, c.id)
    requires y.ep.IsDuplicate(c.packet) || y.ep.IsTooOld(c.packet)
    ensures c.id in y.orderedAccepted
  {
    hide Classifiable, LogContents;
    Classified(y.ep.orderedReceived, y.orderedAccepted, y.orderedTop, x.ep.orderedSent, x.orderedLog, c.id);
  }

  /** Nothing is left to remove for an acknowledgement that has been applied and is not too late. */
  lemma SpentAck(sent: Window<Pending>, log: seq<Copy>, newest: u16, bits: nat, r: int)
    requires HoldsLog(sent, log) && Cleared(newest, bits, r, sent, |log| - 1)
    requires newest == Wire(r) && -1 <= r < |log| && |log| - 1 - r <= 65504
    ensures Packets.Acknowledge(sent, newest, bits) == sent
  {
    forall k | k in sent.entries ensures !Acked(newest, bits, k) {
      var id := KeyHasId(sent, |log| - 1, k);
      if Acked(newest, bits, k) {
        AckNames(r, |log| - 1, id);
      }
    }
    assert Packets.Acknowledge(sent, newest, bits).entries == sent.entries;
  }

  lemma SpentCopy(x: Node, y: Node, c: Copy)
    requires Inv(y, x) && Applied(c, y) && CopySound(c, AcceptedBy(x))
    requires |y.reliableLog| - 1 - c.ackReliable <= 65504 && |y.orderedLog| - 1 - c.ackOrdered <= 65504
    requires c.ackReliable < |y.reliableLog| && c.ackOrdered < |y.orderedLog|
    ensures y.ep.Acknowledge(c.packet.ack) == y.ep
  {
    hide Inv, Cleared, Packets.Acknowledge, HoldsLog;
    SendFacts(y, x);
    SpentAck(y.ep.reliableSent, y.reliableLog, c.packet.ack.reliableNewest, c.packet.ack.reliableBits, c.ackReliable);
    SpentAck(y.ep.orderedSent, y.orderedLog, c.packet.ack.orderedNewest, c.packet.ack.orderedBits, c.ackOrdered);
  }

  /**
   * A copy that is turned away is the very packet accepted before, and its acknowledgement, which is
   * not looked at, would have changed nothing.
   */
  lemma TurnedAwayIsKnown(w: World, x: Node, y: Node, c: Copy)
    requires Reachable(w) && Sides(w, x, y)
    requires y.ep.Valid() && Sendable(y.ep.unreliableQueue) && AllowedAt(y, x, Action.Deliver(c))
    requires c.packet.reliable && (y.ep.IsDuplicate(c.packet) || y.ep.IsTooOld(c.packet))
    ensures Taken(c, y)
    ensures var log := if c.packet.ordered then x.orderedLog else x.reliableLog; 0 <= c.id < |log| && log[c.id] == c
    ensures y.ep.Acknowledge(c.packet.ack) == y.ep
  {
    hide Inv, Applied, Classifiable, Endpoint.IsDuplicate, Endpoint.IsTooOld, Reachable, Retries, CopySound, Packets.Acknowledge;
    ReachableFullInv(w);
    InvIsSymmetric(w.a, w.b);
    CopyOnNet(y, x, c);
    TurnedAway(y, x, c);
    AcksInLogs(x, y);
    SpentCopy(x, y, c);
  }
}

/** What every run of two communicators guarantees. */
module Safety {
  import opened WrappingIds
  import opened Windows
  import opened Packets
  import opened Packing
  import opened Flushing
  import opened Endpoints
  import opened Network
  import opened Streams
  import opened Delivery
  import opened Invariants
  import opened InvariantSends
  import opened InvariantDelivers

  lemma ActKeeps(n: Node, p: Node, action: Action)
    requires Inv(n, p) && n.ep.Valid() && Sendable(n.ep.unreliableQueue)
    requires AllowedAt(n, p, action)
    ensures Inv(Act(n, action), p)
  {
    hide Inv;
    match action {
      case Write(m) => WriteKeeps(n, p, m);
      case WriteReliable(m) => WriteReliableKeeps(n, p, m);
      case WriteOrdered(m) => WriteOrderedKeeps(n, p, m);
      case WriteHeartbeat => HeartbeatKeeps(n, p);
      case Send(reliableDue, orderedDue) => SendKeeps(n, p, reliableDue, orderedDue);
      case Deliver(c) => DeliverKeeps(n, p, c);
      case ReadOrdered => ReadOrderedKeeps(n, p);
      case ReadUnordered => ReadUnorderedKeeps(n, p);
    }
  }

  lemma InvIsSymmetric(x: Node, y: Node)
    requires Inv(x, y)
    ensures Inv(y, x)
  {
    hide NodeInv, StreamsInv;
  }

  ghost predicate WorldInv(w: World) {
    Inv(w.a, w.b)
  }

  lemma WorldIsReady(w: World)
    requires WorldInv(w)
    ensures Ready(w)
  {
    hide Inv;
    InvIsReady(w.a, w.b);
    InvIsSymmetric(w.a, w.b);
    InvIsReady(w.b, w.a);
  }

  lemma StepKeeps(w: World, step: Step)
    requires WorldInv(w) && Ready(w) && Allowed(w, step)
    ensures WorldInv(Next(w, step))
  {
    hide Inv;
    if step.atA {
      ActKeeps(w.a, w.b, step.action);
    } else {
      InvIsSymmetric(w.a, w.b);
      ActKeeps(w.b, w.a, step.action);
      InvIsSymmetric(Act(w.b, step.action), w.a);
    }
  }

  /** Every run of allowed steps keeps the invariant. */
  lemma {:induction false} RunKeeps(w: World, steps: seq<Step>, end: World)
    requires WorldInv(w) && Runs(w, steps, end)
    ensures WorldInv(end)
    decreases |steps|
  {
    hide WorldInv;
    if steps != [] {
      StepKeeps(w, steps[0]);
      RunKeeps(Next(w, steps[0]), steps[1..], end);
    }
  }

  lemma ReachableInv(w: World)
    requires Reachable(w)
    ensures WorldInv(w)
  {
    var configA, configB, steps :| Runs(Start(configA, configB), steps, w);
    InvInitially(configA, configB);
    RunKeeps(Start(configA, configB), steps, w);
  }

  // ---------------------------------------------------------------- ordered messages

  /** The messages of the first packets of a log are a prefix of what was written. */
  lemma {:induction false} LogPrefix(log: seq<Copy>, h: nat)
    requires h <= |log|
    ensures LogContents(log[..h]) <= LogContents(log)
  {
    if h < |log| {
      var shorter := log[..|log| - 1];
      LogPrefix(shorter, h);
      assert shorter[..h] == log[..h];
    } else {
      assert log[..h] == log;
    }
  }

  /** What a node has released in order: the packets before its read head, and no others. */
  lemma OrderedStream(x: Node, y: Node)
    requires OrderedInv(x, y)
    ensures y.orderedRead + y.ep.orderedRecv <= x.orderedWritten
    ensures 0 <= y.readTop <= |x.orderedLog|
    ensures y.orderedRead + y.ep.orderedRecv == LogContents(x.orderedLog[..y.readTop])
  {
    LogPrefix(x.orderedLog, y.readTop);
  }

  /** `x` and `y` are the two sides of `w`, in either order. */
  ghost predicate Sides(w: World, x: Node, y: Node) {
    (x == w.a && y == w.b) || (x == w.b && y == w.a)
  }

  lemma SidesInv(w: World, x: Node, y: Node)
    requires Reachable(w) && Sides(w, x, y)
    ensures Inv(x, y)
  {
    ReachableInv(w);
    InvIsSymmetric(w.a, w.b);
  }

  /**
   * In every state that can be reached, what a side has handed out in order is a prefix of what the
   * other side has written in order: nothing is lost, repeated, invented or out of order in it.
   */
  lemma OrderedSafety(w: World, x: Node, y: Node)
    requires Reachable(w) && Sides(w, x, y)
    ensures y.orderedRead + y.ep.orderedRecv <= x.orderedWritten
    ensures 0 <= y.readTop <= |x.orderedLog|
    ensures y.orderedRead + y.ep.orderedRecv == LogContents(x.orderedLog[..y.readTop])
  {
    SidesInv(w, x, y);
    OrderedStream(x, y);
  }

  // ---------------------------------------------------------------- reliable unordered messages

  lemma {:induction false} SumIsBounded(log: seq<Copy>, accepted: set<int>, n: nat)
    requires n <= |log|
    ensures SumAccepted(log, accepted, n) <= multiset(LogContents(log[..n]))
  {
    if n > 0 {
      SumIsBounded(log, accepted, n - 1);
      assert log[..n][..n - 1] == log[..n - 1];
    }
  }

  lemma ReliableStream(x: Node, y: Node)
    requires ReliableInv(x, y)
    ensures y.reliableDelivered == SumAccepted(x.reliableLog, y.reliableAccepted, |x.reliableLog|)
    ensures y.reliableDelivered <= multiset(x.reliableWritten)
  {
    SumIsBounded(x.reliableLog, y.reliableAccepted, |x.reliableLog|);
    assert x.reliableLog[..|x.reliableLog|] == x.reliableLog;
  }

  /**
   * The messages handed out without order are those of the accepted reliable packets, each packet
   * counted exactly once, and those of delivered unreliable packets, which were all written.
   */
  lemma ExactlyOnce(w: World, x: Node, y: Node)
    requires Reachable(w) && Sides(w, x, y)
    ensures multiset(y.unorderedRead) + multiset(y.ep.unorderedRecv)
         == SumAccepted(x.reliableLog, y.reliableAccepted, |x.reliableLog|) + y.unreliableDelivered
    ensures SumAccepted(x.reliableLog, y.reliableAccepted, |x.reliableLog|) <= multiset(x.reliableWritten)
    ensures forall m :: m in y.unreliableDelivered ==> m in x.unreliableWritten
  {
    SidesInv(w, x, y);
    ReliableStream(x, y);
  }

  // ---------------------------------------------------------------- nothing is lost

  /** Once the send ring and the queue of a stream are empty, the peer has everything. */
  lemma OrderedComplete(x: Node, y: Node)
    requires OrderedInv(x, y)
    requires x.ep.orderedSent.entries == map[] && x.ep.orderedQueue == []
    ensures y.orderedRead + y.ep.orderedRecv == x.orderedWritten
  {
    var log := x.orderedLog;
    assert forall id :: 0 <= id < |log| ==> id in y.orderedAccepted;
    assert y.readTop == |log|;
    assert log[..|log|] == log;
  }

  lemma ReliableComplete(x: Node, y: Node)
    requires ReliableInv(x, y)
    requires x.ep.reliableSent.entries == map[] && x.ep.reliableQueue == []
    ensures y.reliableDelivered == multiset(x.reliableWritten)
  {
    var log := x.reliableLog;
    SumOfAll(log, y.reliableAccepted, |log|);
    assert log[..|log|] == log;
  }

  /** When `has_work` says no at one side, the other side has everything it was sent reliably. */
  lemma NoWorkMeansDelivered(w: World, x: Node, y: Node)
    requires Reachable(w) && Sides(w, x, y)
    requires !x.ep.HasWork()
    ensures y.orderedRead + y.ep.orderedRecv == x.orderedWritten
    ensures y.reliableDelivered == multiset(x.reliableWritten)
  {
    SidesInv(w, x, y);
    OrderedComplete(x, y);
    ReliableComplete(x, y);
  }

  // ---------------------------------------------------------------- the window

  /** What the ends of one stream know of each other in every reachable state. */
  ghost predicate WindowInv<T>(sent: Window<Pending>, received: Window<T>, accepted: set<int>, newest: int, top: int) {
    && newest - 32 <= top <= newest
    && (forall id :: 0 <= id <= newest - 32 ==> id in accepted)
    && (forall id :: InUse(sent, newest, id) && id in accepted ==> InUse(received, top, id))
    && (forall id :: InUse(sent, newest, id) && id in accepted ==> Acked(received.newest, AckBits(received), Wire(id)))
    && (forall id :: InUse(sent, newest, id) && id !in accepted ==>
          Wire(id) !in received.entries && !WrappingGt(WrappingSub(received.newest, 31), Wire(id), 64))
  }

  lemma StreamWindow<T>(sent: Window<Pending>, log: seq<Copy>, received: Window<T>, accepted: set<int>, top: int)
    requires HoldsLog(sent, log) && NothingLost(sent, log, accepted)
    requires ReceiveInv(received, accepted, top) && top < |log|
    ensures WindowInv(sent, received, accepted, |log| - 1, top)
  {
    WindowIsTight(sent, log, accepted, top);
    FreshAck(received, accepted, top);
    forall id | InUse(sent, |log| - 1, id) && id !in accepted
      ensures Wire(id) !in received.entries && !WrappingGt(WrappingSub(received.newest, 31), Wire(id), 64)
    {
      Classified(received, accepted, top, sent, log, id);
    }
  }

  /**
   * In every reachable state the receiver is at most 32 ids behind the sender, every older id has been
   * accepted, a pending packet that has been accepted is covered by any acknowledgement built now, and
   * one that has not is neither taken for a duplicate nor for too old.
   */
  lemma WindowSafety(w: World, x: Node, y: Node)
    requires Reachable(w) && Sides(w, x, y)
    ensures WindowInv(x.ep.reliableSent, y.ep.reliableReceived, y.reliableAccepted, |x.reliableLog| - 1, y.reliableTop)
    ensures WindowInv(x.ep.orderedSent, y.ep.orderedReceived, y.orderedAccepted, |x.orderedLog| - 1, y.orderedTop)
  {
    hide WindowInv, Reachable, HoldsLog, NothingLost, ReceiveInv, NodeInv, LogInv, NetInv;
    SidesInv(w, x, y);
    StreamWindow(x.ep.reliableSent, x.reliableLog, y.ep.reliableReceived, y.reliableAccepted, y.reliableTop);
    StreamWindow(x.ep.orderedSent, x.orderedLog, y.ep.orderedReceived, y.orderedAccepted, y.orderedTop);
  }

  /** No step forgets an accepted id or moves the newest accepted id or the read head back. */
  lemma NothingMovesBack(n: Node, p: Node, action: Action)
    requires Inv(n, p) && n.ep.Valid() && Sendable(n.ep.unreliableQueue)
    ensures var next := Act(n, action);
      && n.reliableAccepted <= next.reliableAccepted && n.reliableTop <= next.reliableTop
      && n.orderedAccepted <= next.orderedAccepted && n.orderedTop <= next.orderedTop
      && n.readTop <= next.readTop
      && n.net <= next.net
      && n.orderedRead <= next.orderedRead
  {
    hide Inv;
  }

  /** New messages come after all those handed over or waiting, on both queues. */
  ghost predicate HandsOverLast(n: Node, later: Node) {
    && n.orderedRead <= later.orderedRead && n.unorderedRead <= later.unorderedRead
    && n.orderedRead + n.ep.orderedRecv <= later.orderedRead + later.ep.orderedRecv
    && n.unorderedRead + n.ep.unorderedRecv <= later.unorderedRead + later.ep.unorderedRecv
    && n.arrived <= later.arrived
  }

  /** No step takes a message back or lets one overtake another. */
  lemma NothingOvertakes(n: Node, action: Action)
    requires n.ep.Valid() && Sendable(n.ep.unreliableQueue)
    ensures HandsOverLast(n, Act(n, action))
  {
    hide Node.Send, Node.Deliver, HandsOverLast;
    match action {
      case Send(reliableDue, orderedDue) => SendHandsOver(n, reliableDue, orderedDue);
      case Deliver(c) => DeliverHandsOver(n, c);
      case ReadOrdered => ReadHandsOver(n);
      case ReadUnordered => ReadHandsOver(n);
      case _ => WriteHandsOver(n, action);
    }
  }

  lemma WriteHandsOver(n: Node, action: Action)
    requires n.ep.Valid() && Sendable(n.ep.unreliableQueue)
    requires action.Write? || action.WriteReliable? || action.WriteOrdered? || action.WriteHeartbeat?
    ensures HandsOverLast(n, Act(n, action))
  {
    hide AckBits;
  }

  lemma SendHandsOver(n: Node, reliableDue: set<u16>, orderedDue: set<u16>)
    requires n.ep.Valid() && Sendable(n.ep.unreliableQueue)
    ensures HandsOverLast(n, n.Send(reliableDue, orderedDue))
  {
    hide AckBits, FlushReliable, FlushUnreliable, Resent, Window.Retain;
  }

  lemma DeliverHandsOver(n: Node, c: Copy)
    requires n.ep.Valid()
    ensures HandsOverLast(n, n.Deliver(c))
  {
    hide Drain, Endpoint.IsDuplicate, Endpoint.IsTooOld, Packets.Acknowledge, FirstMissing, Window.Insert;
  }

  lemma ReadHandsOver(n: Node)
    ensures HandsOverLast(n, n.ReadOrdered()) && HandsOverLast(n, n.ReadUnordered())
  {
    if n.ep.orderedRecv != [] {
      MoveHead(n.orderedRead, n.ep.orderedRecv);
    }
    if n.ep.unorderedRecv != [] {
      MoveHead(n.unorderedRead, n.ep.unorderedRecv);
    }
  }
}

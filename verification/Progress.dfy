/**
 * Conditional progress: one transmission of what is pending, one delivery of what the peer still needs
 * and one fresh acknowledgement empty the send rings and shorten the queues.
 */
module Progress {
  import opened WrappingIds
  import opened Windows
  import opened Packets
  import opened Packing
  import opened Flushing
  import opened Endpoints
  import opened Network
  import opened Streams
  import opened Delivery
  import opened Invariants
  import opened InvariantSends
  import opened Safety
  import opened Histories

  lemma {:induction false} RunsAppend(w: World, first: seq<Step>, middle: World, second: seq<Step>, end: World)
    requires Runs(w, first, middle) && Runs(middle, second, end)
    ensures Runs(w, first + second, end)
    decreases |first|
  {
    hide Allowed, Next, Ready;
    if first == [] {
      assert first + second == second;
    } else {
      RunsAppend(Next(w, first[0]), first[1..], middle, second, end);
      assert (first + second)[1..] == first[1..] + second;
    }
  }

  lemma RunsOne(w: World, step: Step)
    requires Ready(w) && Allowed(w, step) && Ready(Next(w, step))
    ensures Runs(w, [step], Next(w, step))
  {
    assert [step][1..] == [];
    assert Runs(Next(w, step), [], Next(w, step));
  }

  /** A run from `w` to `end`, where both invariants hold. */
  ghost predicate Leads(w: World, steps: seq<Step>, end: World) {
    FullInv(end) && Runs(w, steps, end)
  }

  lemma LeadsNowhere(w: World)
    requires FullInv(w) && Ready(w)
    ensures Leads(w, [], w)
  {
    hide FullInv;
  }

  lemma EndOfRun(w: World, steps: seq<Step>, end: World)
    requires Leads(w, steps, end)
    ensures Inv(end.a, end.b) && Inv(end.b, end.a) && Ready(end)
    ensures HistoryInv(end.a, end.b) && HistoryInv(end.b, end.a)
  {
    hide Inv, Retries, Arrived;
    InvIsSymmetric(end.a, end.b);
    WorldIsReady(end);
  }

  /** One more step at the end of a run. */
  lemma OneStep(w: World, steps: seq<Step>, middle: World, step: Step)
    requires Leads(w, steps, middle) && Ready(middle) && Allowed(middle, step)
    ensures Leads(w, steps + [step], Next(middle, step))
  {
    hide WorldInv, HistoryInv;
    FullStepKeeps(middle, step);
    WorldIsReady(Next(middle, step));
    RunsOne(middle, step);
    RunsAppend(w, steps, middle, [step], Next(middle, step));
  }

  lemma SendAtA(w: World, before: seq<Step>, now: World, reliableDue: set<u16>, orderedDue: set<u16>)
    returns (steps: seq<Step>, end: World)
    requires Leads(w, before, now) && Ready(now)
    requires AllowedAt(now.a, now.b, Action.Send(reliableDue, orderedDue))
    ensures Leads(w, steps, end) && end == now.(a := now.a.Send(reliableDue, orderedDue))
  {
    var step := Step(true, Action.Send(reliableDue, orderedDue));
    hide Leads, AllowedAt, Ready, Node.Send;
    OneStep(w, before, now, step);
    steps, end := before + [step], Next(now, step);
  }

  lemma DeliverAtA(w: World, before: seq<Step>, now: World, c: Copy) returns (steps: seq<Step>, end: World)
    requires Leads(w, before, now) && Ready(now) && AllowedAt(now.a, now.b, Action.Deliver(c))
    ensures Leads(w, steps, end) && end == now.(a := now.a.Deliver(c))
  {
    var step := Step(true, Action.Deliver(c));
    hide Leads, AllowedAt, Ready, Node.Deliver;
    OneStep(w, before, now, step);
    steps, end := before + [step], Next(now, step);
  }

  lemma DeliverAtB(w: World, before: seq<Step>, now: World, c: Copy) returns (steps: seq<Step>, end: World)
    requires Leads(w, before, now) && Ready(now) && AllowedAt(now.b, now.a, Action.Deliver(c))
    ensures Leads(w, steps, end) && end == now.(b := now.b.Deliver(c))
  {
    var step := Step(false, Action.Deliver(c));
    hide Leads, AllowedAt, Ready, Node.Deliver;
    OneStep(w, before, now, step);
    steps, end := before + [step], Next(now, step);
  }

  lemma WriteHeartbeatAtB(w: World, before: seq<Step>, now: World) returns (steps: seq<Step>, end: World)
    requires Leads(w, before, now) && Ready(now)
    ensures Leads(w, steps, end) && end == now.(b := now.b.WriteHeartbeat())
  {
    var step := Step(false, Action.WriteHeartbeat);
    hide Leads, Ready, Node.WriteHeartbeat;
    OneStep(w, before, now, step);
    steps, end := before + [step], Next(now, step);
  }

  lemma SendNothingAtB(w: World, before: seq<Step>, now: World) returns (steps: seq<Step>, end: World)
    requires Leads(w, before, now) && Ready(now) && AllowedAt(now.b, now.a, Action.Send({}, {}))
    ensures Leads(w, steps, end) && end == now.(b := now.b.Send({}, {}))
  {
    var step := Step(false, Action.Send({}, {}));
    hide Leads, AllowedAt, Ready, Node.Send;
    OneStep(w, before, now, step);
    steps, end := before + [step], Next(now, step);
  }

  /** The acknowledgement that `c` carries is not too late for the peer `n`. */
  ghost predicate Timely(c: Copy, n: Node) {
    && |n.reliableLog| - 1 - c.ackReliable <= 65504
    && |n.orderedLog| - 1 - c.ackOrdered <= 65504
  }

  /** The acknowledgement in every pending packet that the peer still needs is not too late for the peer. */
  ghost predicate Fresh(sent: Window<Pending>, log: seq<Copy>, accepted: set<int>, peer: Node) {
    forall id :: InUse(sent, |log| - 1, id) && 0 <= id && id !in accepted ==> Timely(log[id], peer)
  }

  /** What is pending or queued can still reach the peer; a count of one retry drops each packet once it is sent. */
  ghost predicate StreamCanGoOn(sent: Window<Pending>, log: seq<Copy>, queue: seq<Msg>, retries: usize,
                                accepted: set<int>, peer: Node)
  {
    && (retries == 1 ==> sent.entries == map[] && queue == [])
    && Fresh(sent, log, accepted, peer)
  }

  /** What is pending or queued at `n` can still reach `p`, on both streams. */
  ghost predicate CanReach(n: Node, p: Node) {
    && StreamCanGoOn(n.ep.reliableSent, n.reliableLog, n.ep.reliableQueue, n.config.maxReliableRetries, p.reliableAccepted, p)
    && StreamCanGoOn(n.ep.orderedSent, n.orderedLog, n.ep.orderedQueue, n.config.maxOrderedRetries, p.orderedAccepted, p)
  }

  lemma AllowSend(n: Node, p: Node, reliableDue: set<u16>, orderedDue: set<u16>)
    requires n.ep.Valid() && Sendable(n.ep.unreliableQueue)
    requires !LastRetry(n.Prepare().ep.reliableSent, reliableDue) && !LastRetry(n.Prepare().ep.orderedSent, orderedDue)
    ensures AllowedAt(n, p, Action.Send(reliableDue, orderedDue))
  {
    hide LastRetry, Node.Prepare;
  }

  lemma AllowDeliver(n: Node, p: Node, c: Copy)
    requires n.ep.Valid() && Sendable(n.ep.unreliableQueue)
    requires c in p.net && Timely(c, n)
    requires c.packet.reliable ==> Classifiable(if c.packet.ordered then n.orderedTop else n.reliableTop, c.id)
    ensures AllowedAt(n, p, Action.Deliver(c))
  {
    hide Classifiable;
  }

  // ---------------------------------------------------------------- one flush

  lemma PushFresh(sent: Window<Pending>, log: seq<Copy>, accepted: set<int>, peer: Node, pending: Pending, c: Copy)
    requires IsRing(sent) && sent.newest == Wire(|log| - 1)
    requires Fresh(sent, log, accepted, peer) && Timely(c, peer)
    ensures Fresh(sent.Push(pending), log + [c], accepted, peer)
  {
    hide Timely;
    NextKey(|log| - 1);
    InsertById(sent, |log| - 1, |log|, pending);
    var next := sent.Push(pending);
    forall id | InUse(next, |log|, id) && 0 <= id && id !in accepted ensures Timely((log + [c])[id], peer) {
      assert id == |log| || InUse(sent, |log| - 1, id);
    }
  }

  lemma {:induction false} FlushFresh(
      sent: Window<Pending>, log: seq<Copy>, accepted: set<int>, peer: Node,
      reliable: Window<()>, ordered: Window<Packet>, queue: seq<Msg>, isOrdered: bool, retries: usize, made: seq<Copy>)
    requires IsRing(reliable) && IsRing(ordered)
    requires IsRing(sent) && sent.newest == Wire(|log| - 1)
    requires Fresh(sent, log, accepted, peer)
    requires Numbered(made, FlushReliable(sent, reliable, ordered, queue, isOrdered, retries).made, |log|)
    requires forall i :: 0 <= i < |made| ==> Timely(made[i], peer)
    ensures Fresh(FlushReliable(sent, reliable, ordered, queue, isOrdered, retries).window, log + made, accepted, peer)
    decreases |made|
  {
    hide Fresh, Timely, FlushReliable;
    if sent.PushWillOverride() || queue == [] {
      NothingFlushed(sent, reliable, ordered, queue, isOrdered, retries);
      assert log + made == log;
    } else {
      var n, pending := FirstFlush(sent, reliable, ordered, queue, isOrdered, retries);
      var rest := FlushReliable(sent.Push(pending), reliable, ordered, queue[n..], isOrdered, retries);
      NumberedTail(made, pending.packet, rest.made, |log|);
      PushFresh(sent, log, accepted, peer, pending, made[0]);
      NextKey(|log| - 1);
      forall i | 0 <= i < |made[1..]| ensures Timely(made[1..][i], peer) {
        assert made[1..][i] == made[i + 1];
      }
      FlushFresh(sent.Push(pending), log + [made[0]], accepted, peer, reliable, ordered, queue[n..], isOrdered, retries, made[1..]);
      MoveHead(log, made);
    }
  }

  /** A flush keeps what can reach the peer able to, as far as new packets are not too late either. */
  lemma FlushCanGoOn(
      sent: Window<Pending>, log: seq<Copy>, accepted: set<int>, peer: Node,
      reliable: Window<()>, ordered: Window<Packet>, queue: seq<Msg>, isOrdered: bool, retries: usize, made: seq<Copy>)
    requires IsRing(reliable) && IsRing(ordered)
    requires IsRing(sent) && sent.newest == Wire(|log| - 1)
    requires StreamCanGoOn(sent, log, queue, retries, accepted, peer)
    requires Numbered(made, FlushReliable(sent, reliable, ordered, queue, isOrdered, retries).made, |log|)
    requires forall i :: 0 <= i < |made| ==> Timely(made[i], peer)
    ensures var r := FlushReliable(sent, reliable, ordered, queue, isOrdered, retries);
      StreamCanGoOn(r.window, log + made, r.queue, retries, accepted, peer)
  {
    hide Fresh, Timely, FlushReliable;
    FlushFresh(sent, log, accepted, peer, reliable, ordered, queue, isOrdered, retries, made);
    if retries == 1 {
      NothingFlushed(sent, reliable, ordered, queue, isOrdered, retries);
    }
  }

  /** A flush never lengthens the queue, and shortens it if the next slot is free. */
  lemma FlushShrinks(sent: Window<Pending>, reliable: Window<()>, ordered: Window<Packet>,
                     queue: seq<Msg>, isOrdered: bool, retries: usize)
    requires IsRing(sent) && IsRing(reliable) && IsRing(ordered) && Sendable(queue)
    ensures var left := FlushReliable(sent, reliable, ordered, queue, isOrdered, retries).queue;
      && |left| <= |queue|
      && (sent.entries == map[] && queue != [] ==> |left| < |queue|)
    ensures queue == [] ==> FlushReliable(sent, reliable, ordered, queue, isOrdered, retries).window == sent
  {
    FlushKeepsMessages(sent, reliable, ordered, queue, isOrdered, retries);
    if sent.entries == map[] && queue != [] {
      var n, pending := FirstFlush(sent, reliable, ordered, queue, isOrdered, retries);
      FlushKeepsMessages(sent.Push(pending), reliable, ordered, queue[n..], isOrdered, retries);
      assert queue[0] in queue;
      assert n > 0;
    }
  }

  // ---------------------------------------------------------------- transmitting everything

  /** Every pending packet that `p` still needs is on the network, and is not too late for `p`. */
  ghost predicate AllSent(sent: Window<Pending>, log: seq<Copy>, net: set<Copy>, accepted: set<int>, p: Node) {
    forall id :: InUse(sent, |log| - 1, id) && 0 <= id && id !in accepted ==> log[id] in net && Timely(log[id], p)
  }

  /** The ids that can be sent again without using up their last retry. */
  function AllDue(sent: Window<Pending>): set<u16> {
    set k | k in sent.entries && sent.entries[k].remainingRetries != 1
  }

  /** A packet on its last retry is on the network already; all others are put there now. */
  lemma ResendAll(sent: Window<Pending>, log: seq<Copy>, accepted: set<int>, peer: Node, before: set<Copy>, net: set<Copy>, retries: usize)
    requires HoldsLog(sent, log) && Fresh(sent, log, accepted, peer)
    requires RetriesInv(sent, log, before, retries) && (retries == 1 ==> sent.entries == map[])
    requires before <= net && Resent(sent, log, AllDue(sent)) <= net
    ensures !LastRetry(sent, AllDue(sent))
    ensures AllSent(sent.Retain(ResendIfNeeded(AllDue(sent))), log, net, accepted, peer)
  {
    hide Timely;
    var after := sent.Retain(ResendIfNeeded(AllDue(sent)));
    forall id | InUse(after, |log| - 1, id) && 0 <= id && id !in accepted
      ensures log[id] in net && Timely(log[id], peer)
    {
      var k := Wire(id);
      assert InUse(sent, |log| - 1, id);
      if k in AllDue(sent) {
        Distance(|log| - 1, id);
        assert CopyOf(sent, log, k) == log[id];
        assert CopyOf(sent, log, k) in Resent(sent, log, AllDue(sent));
      }
    }
  }

  /** What `Prepare` does to a node leaves what can reach the peer able to. */
  lemma PrepareCanReach(n: Node, p: Node)
    requires Inv(n, p) && n.ep.Valid() && Sendable(n.ep.unreliableQueue) && CanReach(n, p)
    ensures CanReach(n.Prepare(), p)
  {
    hide Inv, StreamCanGoOn;
    var n1 := n.MaybeHeartbeat();
    MaybeHeartbeatKeeps(n, p);
    assert CanReach(n1, p);
    InvIsReady(n1, p);
    FlushReliableCanReach(n1, p);
    FlushReliableKeeps(n1, p);
    var n2 := n1.FlushReliableQueue();
    InvIsReady(n2, p);
    FlushOrderedCanReach(n2, p);
  }

  /** Acknowledgements made now are not too late: the peer is at most 32 packets ahead of them. */
  lemma StampTimely(n: Node, p: Node, packets: seq<Packet>, first: int)
    requires Inv(n, p)
    ensures forall i :: 0 <= i < |packets| ==> Timely(n.Stamp(packets, first)[i], p)
  {
    hide Inv;
    InvIsSymmetric(n, p);
    TopsClose(p, n);
  }

  lemma FlushReliableCanReach(n: Node, p: Node)
    requires Inv(n, p) && n.ep.Valid() && CanReach(n, p)
    ensures CanReach(n.FlushReliableQueue(), p)
  {
    hide Inv, StreamCanGoOn, Timely, FlushReliable, HoldsLog, LogInv, NetInv, QueuedInv, AllSound;
    SendFacts(n, p);
    var e, retries := n.ep, n.config.maxReliableRetries;
    var r := FlushReliable(e.reliableSent, e.reliableReceived, e.orderedReceived, e.reliableQueue, false, retries);
    var made := n.Stamp(r.made, |n.reliableLog|);
    StampTimely(n, p, r.made, |n.reliableLog|);
    FlushCanGoOn(e.reliableSent, n.reliableLog, p.reliableAccepted, p, e.reliableReceived, e.orderedReceived, e.reliableQueue, false, retries, made);
  }

  lemma FlushOrderedCanReach(n: Node, p: Node)
    requires Inv(n, p) && n.ep.Valid() && CanReach(n, p)
    ensures CanReach(n.FlushOrderedQueue(), p)
  {
    hide Inv, StreamCanGoOn, Timely, FlushReliable, HoldsLog, LogInv, NetInv, QueuedInv, AllSound;
    SendFacts(n, p);
    var e, retries := n.ep, n.config.maxOrderedRetries;
    var r := FlushReliable(e.orderedSent, e.reliableReceived, e.orderedReceived, e.orderedQueue, true, retries);
    var made := n.Stamp(r.made, |n.orderedLog|);
    StampTimely(n, p, r.made, |n.orderedLog|);
    FlushCanGoOn(e.orderedSent, n.orderedLog, p.orderedAccepted, p, e.reliableReceived, e.orderedReceived, e.orderedQueue, true, retries, made);
  }

  /** `a` sends everything that is pending or fits into its rings, except for what is on its last retry. */
  lemma SendAll(w: World, before: seq<Step>, now: World) returns (steps: seq<Step>, end: World)
    requires Leads(w, before, now) && Ready(now) && CanReach(now.a, now.b)
    ensures Leads(w, steps, end)
    ensures end.b == now.b && SameWritten(now.a, end.a) && QueuesShrink(now.a, end.a)
    ensures SameStreams(now.a.Prepare(), end.a) && CanReach(end.a, end.b)
    ensures end.a.ep.unreliableQueue == [] && end.a.ep.unreliablePackets == []
    ensures AllSent(end.a.ep.reliableSent, end.a.reliableLog, end.a.net, end.b.reliableAccepted, end.b)
    ensures AllSent(end.a.ep.orderedSent, end.a.orderedLog, end.a.net, end.b.orderedAccepted, end.b)
  {
    hide Inv, Fresh, Timely, HoldsLog, NodeInv, LastRetry, AllSent, Resent, Leads, AllowedAt, LogInv, NetInv, QueuedInv, AllSound;
    hide Node.Prepare, Node.Transmit, Endpoint.Prepare, QueuesShrink, AllDue, SameWritten, RetriesInv, Arrived, Forward;
    EndOfRun(w, before, now);
    var q := now.a.Prepare();
    var reliableDue, orderedDue := AllDue(q.ep.reliableSent), AllDue(q.ep.orderedSent);
    PrepareCanReach(now.a, now.b);
    PrepareKeeps(now.a, now.b);
    PrepareForward(now.a, now.b);
    SendFacts(q, now.b);
    TransmitFacts(q, reliableDue, orderedDue);
    var sent := q.Transmit(reliableDue, orderedDue);
    ResendAll(q.ep.reliableSent, q.reliableLog, now.b.reliableAccepted, now.b, q.net, sent.net, q.config.maxReliableRetries);
    ResendAll(q.ep.orderedSent, q.orderedLog, now.b.orderedAccepted, now.b, q.net, sent.net, q.config.maxOrderedRetries);
    AllowSend(now.a, now.b, reliableDue, orderedDue);
    steps, end := SendAtA(w, before, now, reliableDue, orderedDue);
    PrepareQueues(now.a, now.b);
    KeepsShrunk(now.a, q, sent);
    CanReachStays(q, sent, now.b);
  }

  /** A node whose rings have only shrunk can reach its peer as before. */
  lemma CanReachStays(n: Node, later: Node, p: Node)
    requires CanReach(n, p) && RingsShrink(n, later) && later.config == n.config
    requires later.reliableLog == n.reliableLog && later.orderedLog == n.orderedLog
    ensures CanReach(later, p)
  {
    hide Timely;
    KeysEmpty(n.ep.reliableSent, later.ep.reliableSent);
    KeysEmpty(n.ep.orderedSent, later.ep.orderedSent);
  }

  lemma KeysEmpty(sent: Window<Pending>, later: Window<Pending>)
    requires later.entries.Keys <= sent.entries.Keys
    ensures sent.entries == map[] ==> later.entries == map[]
    ensures forall top, id :: InUse(later, top, id) ==> InUse(sent, top, id)
  {
    if sent.entries == map[] {
      assert later.entries.Keys == {};
    }
  }

  /** Two states of a peer that do not differ in what matters for reaching it. */
  ghost predicate SameStreams(p: Node, later: Node) {
    && |later.reliableLog| == |p.reliableLog| && |later.orderedLog| == |p.orderedLog|
    && later.reliableAccepted == p.reliableAccepted && later.orderedAccepted == p.orderedAccepted
  }

  lemma ReachesTheSame(n: Node, p: Node, later: Node)
    requires CanReach(n, p) && SameStreams(p, later)
    ensures CanReach(n, later)
  {
  }

  lemma TransmitFacts(n: Node, reliableDue: set<u16>, orderedDue: set<u16>)
    ensures var sent := n.Transmit(reliableDue, orderedDue);
      && sent.ep.reliableSent == n.ep.reliableSent.Retain(ResendIfNeeded(reliableDue))
      && sent.ep.orderedSent == n.ep.orderedSent.Retain(ResendIfNeeded(orderedDue))
      && sent.reliableLog == n.reliableLog && sent.orderedLog == n.orderedLog
      && Resent(n.ep.reliableSent, n.reliableLog, reliableDue) <= sent.net
      && Resent(n.ep.orderedSent, n.orderedLog, orderedDue) <= sent.net
      && n.net <= sent.net
      && RingsShrink(n, sent) && SameStreams(n, sent) && SameWritten(n, sent)
      && sent.ep.unreliableQueue == n.ep.unreliableQueue && sent.ep.unreliablePackets == []
  {
    hide Resent;
    assert forall k :: k in n.ep.reliableSent.Retain(ResendIfNeeded(reliableDue)).entries ==> k in n.ep.reliableSent.entries;
    assert forall k :: k in n.ep.orderedSent.Retain(ResendIfNeeded(orderedDue)).entries ==> k in n.ep.orderedSent.entries;
  }

  /** The queue has not grown; behind an empty ring it is shorter, or both are still empty. */
  ghost predicate QueueShrinks(sent: Window<Pending>, queue: seq<Msg>, later: Window<Pending>, left: seq<Msg>) {
    && |left| <= |queue|
    && (sent.entries == map[] && queue != [] ==> |left| < |queue|)
    && (sent.entries == map[] && queue == [] ==> later.entries == map[])
  }

  ghost predicate QueuesShrink(n: Node, later: Node) {
    && QueueShrinks(n.ep.reliableSent, n.ep.reliableQueue, later.ep.reliableSent, later.ep.reliableQueue)
    && QueueShrinks(n.ep.orderedSent, n.ep.orderedQueue, later.ep.orderedSent, later.ep.orderedQueue)
  }

  /** Queues shrink as well if the rings lose packets before or after. */
  lemma KeepsShrunk(n: Node, q: Node, later: Node)
    requires SameWritten(n, q) && SameWritten(q, later)
    requires (QueuesShrink(n, q) && RingsShrink(q, later)) || (RingsShrink(n, q) && QueuesShrink(q, later))
    ensures QueuesShrink(n, later) && SameWritten(n, later)
  {
    if RingsShrink(q, later) {
      KeysEmpty(q.ep.reliableSent, later.ep.reliableSent);
      KeysEmpty(q.ep.orderedSent, later.ep.orderedSent);
    }
    if RingsShrink(n, q) {
      KeysEmpty(n.ep.reliableSent, q.ep.reliableSent);
      KeysEmpty(n.ep.orderedSent, q.ep.orderedSent);
    }
  }

  /** The queues are the same and nothing new is pending. */
  ghost predicate RingsShrink(n: Node, later: Node) {
    && later.ep.reliableQueue == n.ep.reliableQueue && later.ep.orderedQueue == n.ep.orderedQueue
    && later.ep.reliableSent.entries.Keys <= n.ep.reliableSent.entries.Keys
    && later.ep.orderedSent.entries.Keys <= n.ep.orderedSent.entries.Keys
  }

  /** The user has written the same, and the retries are configured the same. */
  ghost predicate SameWritten(n: Node, later: Node) {
    later.reliableWritten == n.reliableWritten && later.orderedWritten == n.orderedWritten && later.config == n.config
  }

  /** Nothing about the history of a node has changed. */
  ghost predicate SameHistory(n: Node, later: Node) {
    && SameWritten(n, later)
    && later.reliableAccepted == n.reliableAccepted && later.orderedAccepted == n.orderedAccepted
  }

  /** Nothing about the reliable queues and rings has changed. */
  ghost predicate SameQueues(n: Node, later: Node) {
    && SameHistory(n, later)
    && later.ep.reliableQueue == n.ep.reliableQueue && later.ep.orderedQueue == n.ep.orderedQueue
    && later.ep.reliableSent == n.ep.reliableSent && later.ep.orderedSent == n.ep.orderedSent
  }

  lemma PrepareQueues(n: Node, p: Node)
    requires Inv(n, p) && n.ep.Valid() && Sendable(n.ep.unreliableQueue)
    ensures SameWritten(n, n.Prepare()) && QueuesShrink(n, n.Prepare())
    ensures n.Prepare().ep.unreliableQueue == []
    ensures n.Prepare().reliableAccepted == n.reliableAccepted && n.Prepare().orderedAccepted == n.orderedAccepted
  {
    hide FlushReliable, Inv, Endpoint.Prepare, QueueShrinks, AckBits, FlushUnreliable;
    NodeQueues(n, p);
    var n1 := n.MaybeHeartbeat();
    assert SameQueues(n, n1);
    FlushQueues(n1);
    var n3 := n1.FlushReliableQueue().FlushOrderedQueue();
    assert SameQueues(n3, n3.FlushUnreliableQueue());
  }

  lemma FlushQueues(n: Node)
    requires n.ep.Valid() && Sendable(n.ep.reliableQueue) && Sendable(n.ep.orderedQueue)
    ensures var later := n.FlushReliableQueue().FlushOrderedQueue();
      SameHistory(n, later) && QueuesShrink(n, later)
  {
    hide FlushReliable, AckBits, Sendable;
    var e := n.ep;
    FlushShrinks(e.reliableSent, e.reliableReceived, e.orderedReceived, e.reliableQueue, false, n.config.maxReliableRetries);
    FlushShrinks(e.orderedSent, e.reliableReceived, e.orderedReceived, e.orderedQueue, true, n.config.maxOrderedRetries);
  }

  lemma NodeQueues(n: Node, p: Node)
    requires Inv(n, p)
    ensures Sendable(n.ep.reliableQueue) && Sendable(n.ep.orderedQueue)
  {
    hide StreamsInv, AllSound, NetInv, QueuedInv;
  }

  // ---------------------------------------------------------------- delivering everything pending

  /** `c` is a copy, on the network, of one of the last 32 packets, and not too late for `y`. */
  ghost predicate Deliverable(c: Copy, x: Node, y: Node) {
    && c in x.net && c.packet.reliable && Timely(c, y)
    && |if c.packet.ordered then x.orderedLog else x.reliableLog| - 32 <= c.id
  }

  /** Only the receiving side of a node has changed, and what is pending no longer. */
  ghost predicate SameSending(n: Node, later: Node) {
    && later.reliableLog == n.reliableLog && later.orderedLog == n.orderedLog
    && SameWritten(n, later) && RingsShrink(n, later)
    && n.reliableAccepted <= later.reliableAccepted && n.orderedAccepted <= later.orderedAccepted
  }

  lemma RecentIsClassifiable(y: Node, x: Node, c: Copy)
    requires Inv(y, x) && Deliverable(c, x, y)
    ensures Classifiable(if c.packet.ordered then y.orderedTop else y.reliableTop, c.id)
  {
    hide Inv;
    TopsInLogs(x, y);
  }

  lemma DeliverTakes(y: Node, x: Node, c: Copy)
    requires Inv(y, x) && y.ep.Valid() && Deliverable(c, x, y)
    ensures Taken(c, y.Deliver(c))
  {
    hide Inv, Classifiable, FirstMissing, Endpoint.Read, Endpoint.IsDuplicate, Endpoint.IsTooOld, Endpoint.Valid;
    RecentIsClassifiable(y, x, c);
    if y.ep.IsDuplicate(c.packet) || y.ep.IsTooOld(c.packet) {
      TurnedAway(y, x, c);
    }
  }

  lemma DeliverOnlyReceives(y: Node, c: Copy)
    requires y.ep.Valid()
    ensures SameSending(y, y.Deliver(c))
  {
    hide FirstMissing, Drain, Endpoint.IsDuplicate, Endpoint.IsTooOld, Endpoint.Valid, Window.Insert, Acked;
  }

  lemma TopsInLogs(x: Node, y: Node)
    requires Inv(y, x)
    ensures y.reliableTop < |x.reliableLog| && y.orderedTop < |x.orderedLog|
  {
    hide NodeInv, LogInv, HoldsLog, NothingLost, ReceiveInv, SumAccepted, LogContents;
  }

  lemma DeliverableStays(copies: set<Copy>, x: Node, y: Node, later: Node)
    requires SameSending(y, later)
    requires forall c :: c in copies ==> Deliverable(c, x, y)
    ensures forall c :: c in copies ==> Deliverable(c, x, later)
  {
  }

  lemma TakenStays(c: Copy, y: Node, later: Node)
    requires Taken(c, y) && SameSending(y, later)
    ensures Taken(c, later)
  {
  }

  lemma SameSendingTwice(n: Node, middle: Node, later: Node)
    requires SameSending(n, middle) && SameSending(middle, later)
    ensures SameSending(n, later)
  {
  }

  lemma DeliverNext(w: World, before: seq<Step>, now: World, c: Copy) returns (steps: seq<Step>, end: World)
    requires Leads(w, before, now) && Deliverable(c, now.a, now.b)
    ensures Leads(w, steps, end)
    ensures end.a == now.a && SameSending(now.b, end.b) && Taken(c, end.b)
  {
    hide Inv, Classifiable, Leads, AllowedAt, Node.Deliver, Timely, SameSending, Taken;
    EndOfRun(w, before, now);
    RecentIsClassifiable(now.b, now.a, c);
    DeliverTakes(now.b, now.a, c);
    DeliverOnlyReceives(now.b, c);
    AllowDeliver(now.b, now.a, c);
    steps, end := DeliverAtB(w, before, now, c);
  }

  /** Every copy in `copies` is delivered to `b` once. */
  lemma {:induction false} DeliverAll(w: World, before: seq<Step>, now: World, copies: set<Copy>)
    returns (steps: seq<Step>, end: World)
    requires Leads(w, before, now)
    requires forall c :: c in copies ==> Deliverable(c, now.a, now.b)
    ensures Leads(w, steps, end)
    ensures end.a == now.a && SameSending(now.b, end.b)
    ensures forall c :: c in copies ==> Taken(c, end.b)
    decreases |copies|
  {
    hide Leads, Deliverable, Taken;
    if copies == {} {
      steps, end := before, now;
    } else {
      var c :| c in copies;
      var first, middle := DeliverNext(w, before, now, c);
      DeliverableStays(copies - {c}, now.a, now.b, middle.b);
      hide SameSending;
      steps, end := DeliverAll(w, first, middle, copies - {c});
      TakenStays(c, middle.b, end.b);
      SameSendingTwice(now.b, middle.b, end.b);
    }
  }

  // ---------------------------------------------------------------- one acknowledgement

  /** Everything pending in the ring has been accepted by the peer. */
  ghost predicate Covered(sent: Window<Pending>, log: seq<Copy>, accepted: set<int>) {
    forall id :: InUse(sent, |log| - 1, id) && 0 <= id ==> id in accepted
  }

  /** A fresh acknowledgement empties a send ring whose packets have all been accepted. */
  lemma AckEmpties<T>(sent: Window<Pending>, log: seq<Copy>, received: Window<T>, accepted: set<int>, top: int)
    requires HoldsLog(sent, log) && ReceiveInv(received, accepted, top) && top < |log|
    requires Covered(sent, log, accepted)
    ensures Packets.Acknowledge(sent, received.newest, AckBits(received)).entries == map[]
  {
    FreshAck(received, accepted, top);
    forall k | k in sent.entries ensures Acked(received.newest, AckBits(received), k) {
      var id := KeyHasId(sent, |log| - 1, k);
    }
  }

  lemma BothRingsEmptied(x: Node, y: Node)
    requires Inv(x, y)
    requires Covered(x.ep.reliableSent, x.reliableLog, y.reliableAccepted)
    requires Covered(x.ep.orderedSent, x.orderedLog, y.orderedAccepted)
    ensures Packets.Acknowledge(x.ep.reliableSent, y.ep.reliableReceived.newest, AckBits(y.ep.reliableReceived)).entries == map[]
    ensures Packets.Acknowledge(x.ep.orderedSent, y.ep.orderedReceived.newest, AckBits(y.ep.orderedReceived)).entries == map[]
    ensures |x.reliableLog| - 33 <= y.reliableTop && |x.orderedLog| - 33 <= y.orderedTop
  {
    hide NodeInv, ReceiveInv, HoldsLog, AckBits, Covered, SumAccepted, LogContents, LogInv;
    AckEmpties(x.ep.reliableSent, x.reliableLog, y.ep.reliableReceived, y.reliableAccepted, y.reliableTop);
    AckEmpties(x.ep.orderedSent, x.orderedLog, y.ep.orderedReceived, y.orderedAccepted, y.orderedTop);
    TopsClose(x, y);
  }

  lemma TopsClose(x: Node, y: Node)
    requires Inv(x, y)
    ensures |x.reliableLog| - 33 <= y.reliableTop && |x.orderedLog| - 33 <= y.orderedTop
  {
    hide NodeInv, HoldsLog, SumAccepted, LogContents, LogInv;
    WindowIsTight(x.ep.reliableSent, x.reliableLog, y.reliableAccepted, y.reliableTop);
    WindowIsTight(x.ep.orderedSent, x.orderedLog, y.orderedAccepted, y.orderedTop);
  }

  /** The heartbeat that `n` would write now. */
  function HeartbeatCopy(n: Node): Copy {
    Copy(-1, Heartbeat(NewAck(n.ep.unreliableId, n.ep.reliableReceived, n.ep.orderedReceived)), n.reliableTop, n.orderedTop)
  }

  lemma HeartbeatIsSent(n: Node, p: Node)
    requires Inv(n, p) && n.ep.Valid() && Sendable(n.ep.unreliableQueue)
    ensures HeartbeatCopy(n) in n.WriteHeartbeat().queued
    ensures n.queued <= n.Prepare().queued
    ensures forall c :: c in n.queued ==> c in n.Send({}, {}).net
    ensures AllowedAt(n, p, Action.Send({}, {}))
  {
    hide Inv, FlushReliable;
    var copies := n.Stamp([Heartbeat(NewAck(n.ep.unreliableId, n.ep.reliableReceived, n.ep.orderedReceived))], -1);
    assert copies[0] == HeartbeatCopy(n);
    assert copies[0] in n.queued + copies;
    assert n.queued <= n.MaybeHeartbeat().queued;
    assert n.queued <= n.Prepare().queued;
  }

  /** What has become of a node that has sent what was queued unreliably, and nothing that was due. */
  ghost predicate Answered(n: Node, p: Node, later: Node) {
    && SameWritten(n, later) && QueuesShrink(n, later)
    && later.ep.unreliableQueue == [] && later.ep.unreliablePackets == []
    && later.reliableAccepted == n.reliableAccepted && later.orderedAccepted == n.orderedAccepted
    && (CanReach(n, p) ==> CanReach(later, p))
  }

  lemma SendNothingAnswers(n: Node, p: Node)
    requires Inv(n, p) && n.ep.Valid() && Sendable(n.ep.unreliableQueue)
    ensures Answered(n, p, n.Send({}, {}))
  {
    hide Inv, CanReach, Node.Prepare, Node.Transmit, QueuesShrink, SameWritten, Resent, Window.Retain;
    var q := n.Prepare();
    PrepareQueues(n, p);
    TransmitFacts(q, {}, {});
    KeepsShrunk(n, q, n.Send({}, {}));
    if CanReach(n, p) {
      PrepareCanReach(n, p);
      CanReachStays(q, n.Send({}, {}), p);
    }
  }

  lemma HeartbeatAnswers(n: Node, p: Node)
    requires Inv(n, p) && n.ep.Valid() && Sendable(n.ep.unreliableQueue)
    requires n.WriteHeartbeat().ep.Valid() && Sendable(n.WriteHeartbeat().ep.unreliableQueue)
    ensures Answered(n, p, n.WriteHeartbeat().Send({}, {}))
  {
    hide Inv, StreamCanGoOn, Node.Send, AckBits;
    HeartbeatKeeps(n, p);
    SendNothingAnswers(n.WriteHeartbeat(), p);
  }

  /** `b` writes a heartbeat and sends it. */
  lemma SendHeartbeat(w: World, before: seq<Step>, now: World) returns (steps: seq<Step>, end: World)
    requires Leads(w, before, now)
    ensures Leads(w, steps, end)
    ensures end.a == now.a && HeartbeatCopy(now.b) in end.b.net && Answered(now.b, now.a, end.b)
  {
    hide Inv, Leads, AllowedAt, HeartbeatCopy, Node.Send, Node.WriteHeartbeat, HistoryInv, Answered;
    EndOfRun(w, before, now);
    HeartbeatIsSent(now.b, now.a);
    var first, middle := WriteHeartbeatAtB(w, before, now);
    EndOfRun(w, first, middle);
    HeartbeatAnswers(now.b, now.a);
    HeartbeatIsSent(middle.b, middle.a);
    steps, end := SendNothingAtB(w, first, middle);
  }

  /** Nothing has changed about sending but that both rings are empty. */
  ghost predicate Emptied(n: Node, later: Node) {
    && later.ep.reliableSent.entries == map[] && later.ep.orderedSent.entries == map[]
    && later.ep.reliableQueue == n.ep.reliableQueue && later.ep.orderedQueue == n.ep.orderedQueue
    && later.ep.unreliableQueue == n.ep.unreliableQueue && later.ep.unreliablePackets == n.ep.unreliablePackets
    && SameWritten(n, later) && SameStreams(n, later)
  }

  /** The heartbeat of a peer that has accepted everything pending empties both send rings. */
  lemma HeartbeatEmpties(x: Node, y: Node)
    requires Inv(x, y) && x.ep.Valid()
    requires Covered(x.ep.reliableSent, x.reliableLog, y.reliableAccepted)
    requires Covered(x.ep.orderedSent, x.orderedLog, y.orderedAccepted)
    ensures Emptied(x, x.Deliver(HeartbeatCopy(y)))
    ensures Timely(HeartbeatCopy(y), x) && !HeartbeatCopy(y).packet.reliable
  {
    hide Inv, AckBits, Covered, Packets.Acknowledge, Endpoint.Valid, Node.Deliver;
    BothRingsEmptied(x, y);
    DeliverUnreliable(x, HeartbeatCopy(y));
  }

  lemma DeliverUnreliable(x: Node, c: Copy)
    requires x.ep.Valid() && !c.packet.reliable
    ensures var later, ack := x.Deliver(c), c.packet.ack;
      && later.ep.reliableSent == Packets.Acknowledge(x.ep.reliableSent, ack.reliableNewest, ack.reliableBits)
      && later.ep.orderedSent == Packets.Acknowledge(x.ep.orderedSent, ack.orderedNewest, ack.orderedBits)
      && later.ep.reliableQueue == x.ep.reliableQueue && later.ep.orderedQueue == x.ep.orderedQueue
      && later.ep.unreliableQueue == x.ep.unreliableQueue && later.ep.unreliablePackets == x.ep.unreliablePackets
      && SameWritten(x, later) && SameStreams(x, later)
  {
    hide Packets.Acknowledge, Endpoint.Valid, Endpoint.IsDuplicate, Endpoint.IsTooOld, FirstMissing;
  }

  /** A heartbeat from `b` reaches `a` and empties its send rings, if `b` has accepted everything in them. */
  lemma AckRound(w: World, before: seq<Step>, now: World) returns (steps: seq<Step>, end: World)
    requires Leads(w, before, now)
    requires Covered(now.a.ep.reliableSent, now.a.reliableLog, now.b.reliableAccepted)
    requires Covered(now.a.ep.orderedSent, now.a.orderedLog, now.b.orderedAccepted)
    ensures Leads(w, steps, end)
    ensures Emptied(now.a, end.a) && Answered(now.b, now.a, end.b)
  {
    hide Inv, Leads, AllowedAt, Covered, Node.Deliver, HeartbeatCopy, Emptied, Timely, Answered, HistoryInv;
    EndOfRun(w, before, now);
    HeartbeatEmpties(now.a, now.b);
    var sent, middle := SendHeartbeat(w, before, now);
    EndOfRun(w, sent, middle);
    AllowDeliver(middle.a, middle.b, HeartbeatCopy(now.b));
    steps, end := DeliverAtA(w, sent, middle, HeartbeatCopy(now.b));
  }

  // ---------------------------------------------------------------- whole rounds

  /** The pending packets that the peer still needs, as copies of the log. */
  function PendingCopies(sent: Window<Pending>, log: seq<Copy>, accepted: set<int>): set<Copy> {
    set id | 0 <= id < |log| && InUse(sent, |log| - 1, id) && id !in accepted :: log[id]
  }

  function NeededCopies(x: Node, y: Node): set<Copy> {
    PendingCopies(x.ep.reliableSent, x.reliableLog, y.reliableAccepted)
      + PendingCopies(x.ep.orderedSent, x.orderedLog, y.orderedAccepted)
  }

  lemma PendingDeliverable(x: Node, y: Node, c: Copy)
    requires Inv(x, y)
    requires AllSent(x.ep.reliableSent, x.reliableLog, x.net, y.reliableAccepted, y)
    requires AllSent(x.ep.orderedSent, x.orderedLog, x.net, y.orderedAccepted, y)
    requires c in NeededCopies(x, y)
    ensures Deliverable(c, x, y)
  {
    hide NodeInv, HoldsLog, NothingLost, ReceiveInv, ReleasedInv, SumAccepted, LogContents, Timely;
  }

  /** Once every needed copy has been taken, the peer covers the whole ring. */
  lemma TakenCovers(x: Node, y: Node, later: Node)
    requires Inv(x, y) && y.reliableAccepted <= later.reliableAccepted && y.orderedAccepted <= later.orderedAccepted
    requires forall c :: c in NeededCopies(x, y) ==> Taken(c, later)
    ensures Covered(x.ep.reliableSent, x.reliableLog, later.reliableAccepted)
    ensures Covered(x.ep.orderedSent, x.orderedLog, later.orderedAccepted)
  {
    hide NodeInv, HoldsLog, NothingLost, ReceiveInv, ReleasedInv, SumAccepted, LogContents;
    forall id | InUse(x.ep.reliableSent, |x.reliableLog| - 1, id) && 0 <= id ensures id in later.reliableAccepted {
      if id !in y.reliableAccepted {
        assert x.reliableLog[id] in PendingCopies(x.ep.reliableSent, x.reliableLog, y.reliableAccepted);
        assert x.reliableLog[id] in NeededCopies(x, y);
      }
    }
    forall id | InUse(x.ep.orderedSent, |x.orderedLog| - 1, id) && 0 <= id ensures id in later.orderedAccepted {
      if id !in y.orderedAccepted {
        assert x.orderedLog[id] in PendingCopies(x.ep.orderedSent, x.orderedLog, y.orderedAccepted);
        assert x.orderedLog[id] in NeededCopies(x, y);
      }
    }
  }

  /** Behind empty rings everything can reach the peer, whatever has become of it. */
  lemma EmptyCanReach(n: Node, p: Node, later: Node, q: Node)
    requires CanReach(n, p) && Emptied(n, later)
    ensures CanReach(later, q)
  {
    hide Timely;
  }

  /** What a round of `a` leaves: empty rings, shorter queues, and nothing unreliable waiting at either side. */
  ghost predicate RoundDone(now: World, end: World) {
    && end.a.ep.reliableSent.entries == map[] && end.a.ep.orderedSent.entries == map[]
    && SameWritten(now.a, end.a) && QueuesShrink(now.a, end.a) && CanReach(end.a, end.b)
    && SameWritten(now.b, end.b) && QueuesShrink(now.b, end.b)
    && end.a.ep.unreliableQueue == [] && end.a.ep.unreliablePackets == []
    && end.b.ep.unreliableQueue == [] && end.b.ep.unreliablePackets == []
  }

  /** What is pending or queued at `b` can still reach `a` once `a` has filled its rings. */
  ghost predicate CanReachAfter(now: World) {
    now.a.ep.Valid() && Sendable(now.a.ep.unreliableQueue) && CanReach(now.b, now.a.Prepare())
  }

  /**
   * One round, from any state of a run in which what is pending at `a` can reach `b`: `a` sends, every
   * packet that `b` still needs arrives once, and one fresh acknowledgement comes back.
   */
  lemma Round(w: World, before: seq<Step>, now: World) returns (steps: seq<Step>, end: World)
    requires Leads(w, before, now) && CanReach(now.a, now.b)
    ensures Leads(w, steps, end) && RoundDone(now, end)
    ensures CanReachAfter(now) ==> CanReach(end.b, end.a)
  {
    hide Leads, Inv, Ready, HistoryInv, CanReach, AllSent, Deliverable, Taken, Covered, NeededCopies, QueueShrinks, Node.Prepare;
    EndOfRun(w, before, now);
    var sentSteps, sent := SendAll(w, before, now);
    EndOfRun(w, sentSteps, sent);
    var copies := NeededCopies(sent.a, sent.b);
    forall c | c in copies ensures Deliverable(c, sent.a, sent.b) {
      PendingDeliverable(sent.a, sent.b, c);
    }
    var takenSteps, taken := DeliverAll(w, sentSteps, sent, copies);
    TakenCovers(sent.a, sent.b, taken.b);
    steps, end := AckRound(w, takenSteps, taken);
    RoundEnds(now, sent, taken, end);
    if CanReachAfter(now) {
      ReachesTheSame(now.b, now.a.Prepare(), sent.a);
      CanReachStays(now.b, taken.b, sent.a);
      ReachesTheSame(end.b, sent.a, end.a);
    }
  }

  lemma RoundEnds(now: World, sent: World, taken: World, end: World)
    requires sent.b == now.b && taken.a == sent.a
    requires SameWritten(now.a, sent.a) && QueuesShrink(now.a, sent.a) && CanReach(sent.a, sent.b)
    requires sent.a.ep.unreliableQueue == [] && sent.a.ep.unreliablePackets == []
    requires SameSending(sent.b, taken.b)
    requires Emptied(taken.a, end.a) && Answered(taken.b, taken.a, end.b)
    ensures RoundDone(now, end)
  {
    hide CanReach;
    EmptyCanReach(sent.a, sent.b, end.a, end.b);
    KeepsShrunk(now.b, taken.b, end.b);
  }
}

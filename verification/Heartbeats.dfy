/** When a side that has nothing to say sends an acknowledgement of its own accord. */
module Heartbeats {
  import opened WrappingIds
  import opened Windows
  import opened Packets
  import opened Packing
  import opened Flushing
  import opened Endpoints
  import opened Network
  import opened Streams
  import opened Delivery
  import opened Invariants
  import opened InvariantDelivers
  import opened Safety
  import opened Histories
  import opened Progress
  import opened Quiescence

  /** Nothing is queued and nothing unreliable waits. */
  predicate Quiet(e: Endpoint) {
    e.reliableQueue == [] && e.orderedQueue == [] && e.unreliableQueue == [] && e.unreliablePackets == []
  }

  lemma {:induction false} NothingDue(sent: Window<Pending>, c: nat)
    requires c <= 65536
    ensures sent.Output(ResendIfNeeded({}), c) == []
  {
    if c > 0 {
      NothingDue(sent, c - 1);
    }
  }

  /** With nothing queued, waiting or due, `send` transmits a heartbeat iff a packet has been turned away since the last one. */
  lemma HeartbeatIff(e: Endpoint, config: Config)
    requires e.Valid() && Quiet(e)
    ensures e.Prepare(config).Transmitted({}, {})
         == if e.duplicate then [Heartbeat(NewAck(e.unreliableId, e.reliableReceived, e.orderedReceived))] else []
    ensures e.Prepare(config).Transmitted({}, {}) != [] <==> e.duplicate
  {
    hide AckBits;
    var q := e.Prepare(config);
    NothingFlushed(e.reliableSent, e.reliableReceived, e.orderedReceived, [], false, config.maxReliableRetries);
    NothingFlushed(e.orderedSent, e.reliableReceived, e.orderedReceived, [], true, config.maxOrderedRetries);
    NothingDue(q.reliableSent, 32);
    NothingDue(q.orderedSent, 32);
  }

  /** A new packet alone does not make a quiet side transmit anything. */
  lemma NewPacketStaysUnanswered(e: Endpoint, packet: Packet, config: Config)
    requires e.Valid() && Quiet(e) && !e.duplicate
    requires packet.reliable && !e.IsDuplicate(packet) && !e.IsTooOld(packet)
    ensures e.Read(packet).Prepare(config).Transmitted({}, {}) == []
  {
    hide Drain, Endpoint.IsDuplicate, Endpoint.IsTooOld, Endpoint.Prepare, Packets.Acknowledge, Window.Insert;
    HeartbeatIff(e.Read(packet), config);
  }

  // ---------------------------------------------------------------- a run

  /** A run at whose end `b` has just accepted its first packet and has nothing to say to it. */
  lemma SilentReceiver() returns (w: World)
    ensures Reachable(w) && w.b.reliableAccepted == {0} && w.b.ep.Valid() && Quiet(w.b.ep)
    ensures w.b.ep.Prepare(w.b.config).Transmitted({}, {}) == []
  {
    hide Leads, Inv, HistoryInv, AllowedAt, CanReach, Node.Deliver, Ready, QueueShrinks, AllSent;
    var config := Config(2, 2);
    var start := Start(config, config);
    var steps, sent := FirstPacketSent(config);
    EndOfRun(start, steps, sent);
    var c := sent.a.reliableLog[0];
    NewNodeAccepts(config, c);
    var all, end := DeliverAtB(start, steps, sent, c);
    LeadsIsReachable(config, config, all, end);
    w := end;
    HeartbeatIff(w.b.ep, w.b.config);
  }

  lemma LeadsIsReachable(configA: Config, configB: Config, steps: seq<Step>, w: World)
    requires Leads(Start(configA, configB), steps, w)
    ensures Reachable(w)
  {
    hide FullInv;
  }

  /** `a` writes a message and sends it. */
  lemma FirstPacketSent(config: Config) returns (steps: seq<Step>, end: World)
    requires config.maxReliableRetries != 1 && config.maxOrderedRetries != 1
    ensures Leads(Start(config, config), steps, end) && end.b == NewNode(config)
    ensures |end.a.reliableLog| > 0 && Ready(end)
    ensures var c := end.a.reliableLog[0];
      && c.id == 0 && c.packet.ack.sequenceId == 0 && c.packet.reliable && !c.packet.ordered
      && AllowedAt(end.b, end.a, Action.Deliver(c))
  {
    hide Inv, HistoryInv, AllowedAt, Ready, QueueShrinks, Leads;
    var start, step := Start(config, config), Step(true, Action.WriteReliable([]));
    FullInvInitially(config, config);
    WorldIsReady(start);
    LeadsNowhere(start);
    assert AllowedAt(start.a, start.b, step.action) by { AllowEmptyWrite(start); }
    OneStep(start, [], start, step);
    assert [] + [step] == [step];
    var written := Next(start, step);
    EndOfRun(start, [step], written);
    assert CanReach(written.a, written.b);
    steps, end := SendAll(start, [step], written);
    EndOfRun(start, steps, end);
    PacketInLog(written, end);
    FirstIsDeliverable(end);
    AllowDeliver(end.b, end.a, end.a.reliableLog[0]);
  }

  lemma AllowEmptyWrite(w: World)
    requires Ready(w)
    ensures AllowedAt(w.a, w.b, Action.WriteReliable([]))
  {
  }

  /** A message that is queued no longer is in a packet. */
  lemma PacketInLog(written: World, end: World)
    requires Inv(end.a, end.b) && end.a.reliableWritten == [[]]
    requires written.a.ep.reliableSent.entries == map[] && written.a.ep.reliableQueue == [[]]
    requires QueuesShrink(written.a, end.a)
    ensures |end.a.reliableLog| > 0
  {
    hide NodeInv, LogInv, HoldsLog, NothingLost, ReceiveInv, ReleasedInv, SumAccepted;
    assert end.a.ep.reliableQueue == [];
  }

  lemma PendingOrAccepted(sent: Window<Pending>, log: seq<Copy>, accepted: set<int>, id: int)
    requires NothingLost(sent, log, accepted) && 0 <= id < |log|
    ensures id in accepted || InUse(sent, |log| - 1, id)
  {
  }

  lemma FirstIsDeliverable(w: World)
    requires Inv(w.a, w.b) && |w.a.reliableLog| > 0 && w.b.reliableAccepted == {} && w.b.reliableTop == -1
    requires AllSent(w.a.ep.reliableSent, w.a.reliableLog, w.a.net, w.b.reliableAccepted, w.b)
    ensures var c := w.a.reliableLog[0];
      && c.id == 0 && c.packet.ack.sequenceId == 0 && c.packet.reliable && !c.packet.ordered
      && c in w.a.net && Timely(c, w.b) && Classifiable(w.b.reliableTop, c.id)
  {
    hide NodeInv, HoldsLog, ReceiveInv, ReleasedInv, SumAccepted, LogContents, Timely;
    PendingOrAccepted(w.a.ep.reliableSent, w.a.reliableLog, w.b.reliableAccepted, 0);
  }

  lemma NewNodeAccepts(config: Config, c: Copy)
    requires c.id == 0 && c.packet.ack.sequenceId == 0 && c.packet.reliable && !c.packet.ordered
    ensures var n := NewNode(config).Deliver(c);
      n.reliableAccepted == {0} && n.ep.Valid() && Quiet(n.ep) && !n.ep.duplicate && n.config == config
  {
    var e := NewEndpoint();
    assert !e.IsDuplicate(c.packet) && !e.IsTooOld(c.packet);
  }

  // ---------------------------------------------------------------- all runs

  /** The user of `b` only reads. */
  ghost predicate Idle(steps: seq<Step>) {
    forall i :: 0 <= i < |steps| ==> steps[i].atA || IdleAction(steps[i].action)
  }

  predicate IdleAction(action: Action) {
    action.Send? || action.Deliver? || action.ReadOrdered? || action.ReadUnordered?
  }

  /** Some reliable copy has arrived at `b` more than once. */
  ghost predicate SecondArrival(steps: seq<Step>) {
    exists c: Copy, i: nat, j: nat :: IsSecond(steps, c, i, j)
  }

  ghost predicate IsSecond(steps: seq<Step>, c: Copy, i: nat, j: nat) {
    c.packet.reliable && i < j < |steps| && steps[i] == Arrival(c) && steps[j] == Arrival(c)
  }

  /** What is accepted has arrived, and only a second arrival makes `b` send anything. */
  ghost predicate IdleInv(done: seq<Step>, w: World) {
    && w.b.reliableLog == [] && w.b.orderedLog == [] && w.b.ep.unreliableQueue == []
    && w.b.ep.reliableQueue == [] && w.b.ep.orderedQueue == []
    && (forall id :: id in w.b.reliableAccepted && 0 <= id < |w.a.reliableLog| ==> Arrival(w.a.reliableLog[id]) in done)
    && (forall id :: id in w.b.orderedAccepted && 0 <= id < |w.a.orderedLog| ==> Arrival(w.a.orderedLog[id]) in done)
    && (w.b.ep.duplicate || w.b.queued != [] || w.b.net != {} ==> SecondArrival(done))
  }

  lemma SecondStays(done: seq<Step>, step: Step)
    requires SecondArrival(done)
    ensures SecondArrival(done + [step])
  {
    var c: Copy, i: nat, j: nat :| IsSecond(done, c, i, j);
    assert IsSecond(done + [step], c, i, j);
  }

  lemma ArrivesAgain(done: seq<Step>, c: Copy)
    requires Arrival(c) in done && c.packet.reliable
    ensures SecondArrival(done + [Arrival(c)])
  {
    var i :| 0 <= i < |done| && done[i] == Arrival(c);
    assert IsSecond(done + [Arrival(c)], c, i, |done|);
  }

  lemma IdleWhileAActs(done: seq<Step>, w: World, step: Step)
    requires FullInv(w) && Ready(w) && Allowed(w, step) && step.atA && IdleInv(done, w)
    ensures IdleInv(done + [step], Next(w, step))
  {
    hide Inv, Retries, Act, AllowedAt, SecondArrival, NoneReturns, Arrived;
    ActForward(w.a, w.b, step.action);
    AcceptedAreLogged(w);
    if SecondArrival(done) {
      SecondStays(done, step);
    }
  }

  lemma AcceptedAreLogged(w: World)
    requires FullInv(w)
    ensures forall id :: id in w.b.reliableAccepted ==> 0 <= id < |w.a.reliableLog|
    ensures forall id :: id in w.b.orderedAccepted ==> 0 <= id < |w.a.orderedLog|
  {
    hide Inv, Retries, Applied;
  }

  /** An idle node sends nothing but heartbeats. */
  lemma IdleSends(n: Node, p: Node, reliableDue: set<u16>, orderedDue: set<u16>)
    requires Inv(n, p) && n.ep.Valid() && Sendable(n.ep.unreliableQueue)
    requires n.reliableLog == [] && n.orderedLog == [] && n.ep.unreliableQueue == []
    requires n.ep.reliableQueue == [] && n.ep.orderedQueue == []
    ensures var later := n.Send(reliableDue, orderedDue);
      && later.reliableLog == [] && later.orderedLog == [] && later.ep.unreliableQueue == []
      && later.ep.reliableQueue == [] && later.ep.orderedQueue == [] && !later.ep.duplicate && later.queued == []
      && (later.net != {} ==> n.ep.duplicate || n.queued != [] || n.net != {})
  {
    hide Inv, AckBits, FlushReliable;
    SendFacts(n, p);
    EmptyLogEmptyRing(n.ep.reliableSent, n.reliableLog);
    EmptyLogEmptyRing(n.ep.orderedSent, n.orderedLog);
    hide HoldsLog, LogInv, NetInv, QueuedInv, AllSound;
    var e := n.MaybeHeartbeat().ep;
    NothingFlushed(e.reliableSent, e.reliableReceived, e.orderedReceived, [], false, n.config.maxReliableRetries);
    NothingFlushed(e.orderedSent, e.reliableReceived, e.orderedReceived, [], true, n.config.maxOrderedRetries);
    var q := n.Prepare();
    assert q.ep.reliableSent.entries == map[] && q.ep.orderedSent.entries == map[];
    assert q.queued != [] ==> n.ep.duplicate || n.queued != [];
  }

  lemma IdleReceives(done: seq<Step>, w: World, c: Copy)
    requires FullInv(w) && Ready(w) && AllowedAt(w.b, w.a, Action.Deliver(c)) && IdleInv(done, w)
    ensures IdleInv(done + [Arrival(c)], w.(b := w.b.Deliver(c)))
  {
    hide Inv, Retries, Applied, Classifiable, Endpoint.IsDuplicate, Endpoint.IsTooOld, SecondArrival;
    InvIsSymmetric(w.a, w.b);
    AcceptedAreLogged(w);
    CopyOnNet(w.b, w.a, c);
    if SecondArrival(done) {
      SecondStays(done, Arrival(c));
    }
    if c.packet.reliable && (w.b.ep.IsDuplicate(c.packet) || w.b.ep.IsTooOld(c.packet)) {
      TurnedAway(w.b, w.a, c);
      ArrivesAgain(done, c);
    }
    DeliverLeavesIdle(w.b, c);
  }

  /** A delivery leaves everything that concerns sending alone, but for the flag of a packet turned away. */
  lemma DeliverLeavesIdle(n: Node, c: Copy)
    requires n.ep.Valid()
    ensures var later := n.Deliver(c);
      && later.reliableLog == n.reliableLog && later.orderedLog == n.orderedLog
      && later.queued == n.queued && later.net == n.net && later.ep.unreliableQueue == n.ep.unreliableQueue
      && later.ep.reliableQueue == n.ep.reliableQueue && later.ep.orderedQueue == n.ep.orderedQueue
    ensures var later, away := n.Deliver(c), c.packet.reliable && (n.ep.IsDuplicate(c.packet) || n.ep.IsTooOld(c.packet));
      && (later.ep.duplicate <==> n.ep.duplicate || away)
      && later.reliableAccepted == n.reliableAccepted + (if c.packet.reliable && !away && !c.packet.ordered then {c.id} else {})
      && later.orderedAccepted == n.orderedAccepted + (if c.packet.reliable && !away && c.packet.ordered then {c.id} else {})
  {
    hide FirstMissing, Drain, Endpoint.IsDuplicate, Endpoint.IsTooOld, Endpoint.Valid, Window.Insert, Packets.Acknowledge;
  }

  lemma IdleStep(done: seq<Step>, w: World, step: Step)
    requires FullInv(w) && Ready(w) && Allowed(w, step) && IdleInv(done, w)
    requires step.atA || IdleAction(step.action)
    ensures IdleInv(done + [step], Next(w, step))
  {
    hide Inv, Retries, Arrived, SecondArrival, Node.Send, Node.Deliver, LastRetry, Classifiable;
    if step.atA {
      IdleWhileAActs(done, w, step);
    } else if step.action.Deliver? {
      IdleReceives(done, w, step.action.copy);
    } else {
      if SecondArrival(done) {
        SecondStays(done, step);
      }
      if step.action.Send? {
        InvIsSymmetric(w.a, w.b);
        IdleSends(w.b, w.a, step.action.reliableDue, step.action.orderedDue);
        OthersAcceptNothing(w.b, step.action);
      }
    }
  }

  lemma {:induction false} IdleRun(done: seq<Step>, w: World, steps: seq<Step>, end: World)
    requires FullInv(w) && Runs(w, steps, end) && Idle(steps) && IdleInv(done, w)
    ensures IdleInv(done + steps, end)
    decreases |steps|
  {
    hide FullInv, IdleInv, Allowed, Next;
    if steps == [] {
      assert done + steps == done;
    } else {
      FullStepKeeps(w, steps[0]);
      IdleStep(done, w, steps[0]);
      IdleRun(done + [steps[0]], Next(w, steps[0]), steps[1..], end);
      assert (done + [steps[0]]) + steps[1..] == done + steps;
    }
  }

  /**
   * In every run in which the user of `b` only reads, `b` has put something on the network, and so has
   * acknowledged anything, only if one and the same reliable packet has arrived at it twice.
   */
  lemma IdleAnswersSecondCopy(configA: Config, configB: Config, steps: seq<Step>, w: World)
    requires Runs(Start(configA, configB), steps, w) && Idle(steps) && w.b.net != {}
    ensures SecondArrival(steps)
  {
    hide Runs, FullInv, Idle;
    FullInvInitially(configA, configB);
    IdleRun([], Start(configA, configB), steps, w);
    assert [] + steps == steps;
  }
}

/** The unordered messages of a run: how they are packed and numbered, and in which order they are handed over. */
module Deliveries {
  import opened WrappingIds
  import opened Windows
  import opened Packets
  import opened Packing
  import opened Flushing
  import opened Endpoints
  import opened Network
  import opened Streams
  import opened Invariants
  import opened InvariantSends
  import opened InvariantDelivers
  import opened Safety
  import opened Histories

  // ---------------------------------------------------------------- unreliable packets

  /** The packets are unreliable and numbered consecutively from `first` on. */
  ghost predicate UnreliableFrom(packets: seq<Packet>, first: int) {
    forall i :: 0 <= i < |packets| ==>
      !packets[i].reliable && !packets[i].ordered && packets[i].ack.sequenceId == Wire(first + i)
  }

  /**
   * All unreliable packets of a node, numbered from 0 on, carry what its user wrote unreliably, in order,
   * up to what is still queued; the last of them wait, and only they get onto the network.
   */
  ghost predicate MadeInv(n: Node) {
    && UnreliableFrom(n.unreliableLog, 0)
    && n.ep.unreliableId == Wire(|n.unreliableLog|)
    && |n.ep.unreliablePackets| <= |n.unreliableLog|
    && n.unreliableLog[|n.unreliableLog| - |n.ep.unreliablePackets|..] == n.ep.unreliablePackets
    && Contents(n.unreliableLog) + n.ep.unreliableQueue == n.unreliableWritten
    && forall c :: c in n.net && !c.packet.reliable ==> c.packet in n.unreliableLog
  }

  lemma {:induction false} ContentsAppend(left: seq<Packet>, right: seq<Packet>)
    ensures Contents(left + right) == Contents(left) + Contents(right)
  {
    if left == [] {
      assert left + right == right;
    } else {
      ContentsAppend(left[1..], right);
      assert (left + right)[1..] == left[1..] + right;
      Reassociate(left[0].messages, Contents(left[1..]), Contents(right));
    }
  }

  /** New unreliable packets with the ids that follow join the log and the packets that wait. */
  lemma MakesMore(n: Node, made: seq<Packet>, queue: seq<Msg>, later: Node)
    requires MadeInv(n) && UnreliableFrom(made, |n.unreliableLog|)
    requires Contents(made) + queue == n.ep.unreliableQueue
    requires later.unreliableLog == n.unreliableLog + made && later.ep.unreliablePackets == n.ep.unreliablePackets + made
    requires later.ep.unreliableId == Wire(|n.unreliableLog| + |made|)
    requires later.ep.unreliableQueue == queue && later.unreliableWritten == n.unreliableWritten && later.net == n.net
    ensures MadeInv(later)
  {
    hide UnreliableFrom, Contents;
    NumberedOn(n.unreliableLog, made);
    ContentsAppend(n.unreliableLog, made);
    Reassociate(Contents(n.unreliableLog), Contents(made), queue);
    StillLast(n.unreliableLog, n.ep.unreliablePackets, made);
  }

  lemma NumberedOn(log: seq<Packet>, made: seq<Packet>)
    requires UnreliableFrom(log, 0) && UnreliableFrom(made, |log|)
    ensures UnreliableFrom(log + made, 0)
  {
  }

  lemma Reassociate<T>(a: seq<T>, b: seq<T>, c: seq<T>)
    ensures a + (b + c) == (a + b) + c
  {
  }

  lemma StillLast<T>(log: seq<T>, last: seq<T>, more: seq<T>)
    requires |last| <= |log| && log[|log| - |last|..] == last
    ensures (log + more)[|log + more| - |last + more|..] == last + more
  {
    assert log + more == log[..|log| - |last|] + (last + more);
  }

  lemma HeartbeatMakes(n: Node)
    requires n.ep.Valid() && MadeInv(n)
    ensures MadeInv(n.WriteHeartbeat())
  {
    hide AckBits, MadeInv;
    var packet := Heartbeat(NewAck(n.ep.unreliableId, n.ep.reliableReceived, n.ep.orderedReceived));
    assert n.ep.unreliableId == Wire(|n.unreliableLog|) by { MadeId(n); }
    NextKey(|n.unreliableLog|);
    assert [packet][1..] == [];
    assert Contents([packet]) == [];
    assert [] + n.ep.unreliableQueue == n.ep.unreliableQueue;
    MakesMore(n, [packet], n.ep.unreliableQueue, n.WriteHeartbeat());
  }

  lemma MadeId(n: Node)
    requires MadeInv(n)
    ensures n.ep.unreliableId == Wire(|n.unreliableLog|)
  {
  }

  lemma FlushUnreliableMakes(n: Node)
    requires n.ep.Valid() && Sendable(n.ep.unreliableQueue) && MadeInv(n)
    ensures MadeInv(n.FlushUnreliableQueue())
  {
    hide AckBits, MadeInv, FlushUnreliable, UnreliableFrom, Advance, Split;
    var e, first := n.ep, |n.unreliableLog|;
    var made := FlushUnreliable(e.unreliableId, e.reliableReceived, e.orderedReceived, e.unreliableQueue);
    MadeId(n);
    FlushUnreliableIsSplit(e.unreliableId, e.reliableReceived, e.orderedReceived, e.unreliableQueue);
    FlushNumbers(e.unreliableId, first, e.reliableReceived, e.orderedReceived, e.unreliableQueue);
    AdvanceIsWire(e.unreliableId, |made|);
    WireAdds(first, |made|);
    assert Contents(made) + [] == e.unreliableQueue;
    MakesMore(n, made, [], n.FlushUnreliableQueue());
  }

  lemma FlushNumbers(id: u16, first: int, reliable: Window<()>, ordered: Window<Packet>, queue: seq<Msg>)
    requires IsRing(reliable) && IsRing(ordered) && Sendable(queue) && id == Wire(first)
    ensures UnreliableFrom(FlushUnreliable(id, reliable, ordered, queue), first)
  {
    hide FlushUnreliable, Split;
    var made := FlushUnreliable(id, reliable, ordered, queue);
    FlushUnreliableIsSplit(id, reliable, ordered, queue);
    forall i | 0 <= i < |made| ensures !made[i].reliable && !made[i].ordered && made[i].ack.sequenceId == Wire(first + i) {
      UnreliableIds(id, reliable, ordered, queue, i);
      assert made[i] in made;
      WireAdds(first, i);
    }
  }

  lemma WireAdds(id: int, count: nat)
    ensures Wire(Wire(id) + count) == Wire(id + count)
  {
  }

  lemma PrepareMakes(n: Node)
    requires n.ep.Valid() && Sendable(n.ep.unreliableQueue) && MadeInv(n)
    ensures MadeInv(n.Prepare())
  {
    hide MadeInv, FlushReliable, AckBits, Node.FlushUnreliableQueue;
    HeartbeatMakes(n);
    var h := if n.ep.duplicate && n.ep.reliableQueue == [] && n.ep.orderedQueue == [] && n.ep.unreliableQueue == []
             then n.WriteHeartbeat() else n;
    SameMade(h, n.MaybeHeartbeat());
    var n2 := n.MaybeHeartbeat().FlushReliableQueue().FlushOrderedQueue();
    SameMade(n.MaybeHeartbeat(), n2);
    FlushUnreliableMakes(n2);
  }

  lemma SameMade(n: Node, later: Node)
    requires MadeInv(n)
    requires later.unreliableLog == n.unreliableLog && later.ep.unreliableId == n.ep.unreliableId
    requires later.ep.unreliablePackets == n.ep.unreliablePackets && later.ep.unreliableQueue == n.ep.unreliableQueue
    requires later.unreliableWritten == n.unreliableWritten && later.net == n.net
    ensures MadeInv(later)
  {
  }

  /** Transmitting empties the packets that wait onto the network. */
  lemma TransmitMakes(n: Node, p: Node, reliableDue: set<u16>, orderedDue: set<u16>)
    requires Inv(n, p) && MadeInv(n)
    ensures MadeInv(n.Transmit(reliableDue, orderedDue))
  {
    hide Inv, HoldsLog, LogInv, Resent, NetInv, AllSound, UnreliableFrom;
    SendFacts(n, p);
    var later := n.Transmit(reliableDue, orderedDue);
    forall c | c in later.net && !c.packet.reliable ensures c.packet in n.unreliableLog {
      if c in Resent(n.ep.reliableSent, n.reliableLog, reliableDue) {
        ResentIsLogged(n.ep.reliableSent, n.reliableLog, reliableDue, c, false);
      } else if c in Resent(n.ep.orderedSent, n.orderedLog, orderedDue) {
        ResentIsLogged(n.ep.orderedSent, n.orderedLog, orderedDue, c, true);
      } else if c in n.queued {
        var i :| 0 <= i < |n.queued| && n.queued[i] == c;
        assert n.unreliableLog[|n.unreliableLog| - |n.ep.unreliablePackets| + i] == n.ep.unreliablePackets[i];
      }
    }
    assert n.unreliableLog[|n.unreliableLog|..] == [];
  }

  lemma SendMakes(n: Node, p: Node, reliableDue: set<u16>, orderedDue: set<u16>)
    requires Inv(n, p) && n.ep.Valid() && Sendable(n.ep.unreliableQueue) && MadeInv(n)
    ensures MadeInv(n.Send(reliableDue, orderedDue))
  {
    hide Inv, MadeInv, Node.Prepare, Node.Transmit;
    PrepareMakes(n);
    PrepareKeeps(n, p);
    TransmitMakes(n.Prepare(), p, reliableDue, orderedDue);
  }

  lemma DeliverMakes(n: Node, c: Copy)
    requires n.ep.Valid() && MadeInv(n)
    ensures MadeInv(n.Deliver(c))
  {
    hide MadeInv, FirstMissing, Drain, Endpoint.IsDuplicate, Endpoint.IsTooOld, Endpoint.Valid, Window.Insert, Packets.Acknowledge;
    SameMade(n, n.Deliver(c));
  }

  lemma WriteMakes(n: Node, m: Msg)
    requires MadeInv(n)
    ensures MadeInv(n.Write(m))
  {
    assert Contents(n.unreliableLog) + (n.ep.unreliableQueue + [m]) == n.unreliableWritten + [m];
  }

  lemma ActMakes(n: Node, p: Node, action: Action)
    requires Inv(n, p) && n.ep.Valid() && Sendable(n.ep.unreliableQueue) && MadeInv(n)
    ensures MadeInv(Act(n, action))
  {
    hide Inv, MadeInv, Node.Deliver, Node.Send, Node.WriteHeartbeat;
    match action {
      case Write(m) => WriteMakes(n, m);
      case WriteReliable(m) => SameMade(n, n.WriteReliable(m));
      case WriteOrdered(m) => SameMade(n, n.WriteOrdered(m));
      case WriteHeartbeat => HeartbeatMakes(n);
      case Send(reliableDue, orderedDue) => SendMakes(n, p, reliableDue, orderedDue);
      case Deliver(c) => DeliverMakes(n, c);
      case ReadOrdered => SameMade(n, n.ReadOrdered());
      case ReadUnordered => SameMade(n, n.ReadUnordered());
    }
  }

  lemma StepMakes(w: World, step: Step)
    requires WorldInv(w) && Ready(w) && MadeInv(w.a) && MadeInv(w.b)
    ensures MadeInv(Next(w, step).a) && MadeInv(Next(w, step).b)
  {
    hide Inv, MadeInv, Act;
    if step.atA {
      ActMakes(w.a, w.b, step.action);
    } else {
      InvIsSymmetric(w.a, w.b);
      ActMakes(w.b, w.a, step.action);
    }
  }

  lemma {:induction false} RunMakes(w: World, steps: seq<Step>, end: World)
    requires WorldInv(w) && MadeInv(w.a) && MadeInv(w.b) && Runs(w, steps, end)
    ensures MadeInv(end.a) && MadeInv(end.b)
    decreases |steps|
  {
    hide WorldInv, MadeInv, Next, Allowed;
    if steps != [] {
      StepKeeps(w, steps[0]);
      StepMakes(w, steps[0]);
      RunMakes(Next(w, steps[0]), steps[1..], end);
    }
  }

  /** Whatever has been sent in a run, in however many sends and heartbeats, `MadeInv` holds at both sides. */
  lemma UnreliableNumbering(w: World)
    requires Reachable(w)
    ensures MadeInv(w.a) && MadeInv(w.b)
  {
    hide Inv, Runs;
    var configA, configB, steps :| Runs(Start(configA, configB), steps, w);
    InvInitially(configA, configB);
    NothingHandedOver(configA, configB);
    RunMakes(Start(configA, configB), steps, w);
  }

  // ---------------------------------------------------------------- the order of delivery

  /** A step that hands messages to the user of `b`: an unreliable packet, or the first copy of a reliable one. */
  predicate HandsOver(before: seq<Step>, step: Step) {
    && !step.atA && step.action.Deliver?
    && var p := step.action.copy.packet;
      !p.reliable || (!p.ordered && step !in before)
  }

  /** The copies whose messages a run has handed over unordered, in order of delivery. */
  function HandedOver(steps: seq<Step>): seq<Copy> {
    if steps == [] then [] else
    var before, step := steps[..|steps| - 1], steps[|steps| - 1];
    HandedOver(before) + if HandsOver(before, step) then [step.action.copy] else []
  }

  lemma HandedOverStep(before: seq<Step>, step: Step)
    ensures HandedOver(before + [step]) == HandedOver(before) + if HandsOver(before, step) then [step.action.copy] else []
  {
    assert (before + [step])[..|before|] == before;
  }

  /** The history of `b` agrees with the steps of the run so far. */
  ghost predicate StepsInv(done: seq<Step>, w: World) {
    && w.b.arrived == HandedOver(done)
    && (forall id :: id in w.b.reliableAccepted && 0 <= id < |w.a.reliableLog| ==> Arrival(w.a.reliableLog[id]) in done)
    && (forall c: Copy :: Arrival(c) in done && c.packet.reliable && !c.packet.ordered ==>
          c.id in w.b.reliableAccepted && 0 <= c.id < |w.a.reliableLog| && w.a.reliableLog[c.id] == c)
    && (forall c: Copy :: Arrival(c) in done && !c.packet.reliable ==> c.packet in w.a.unreliableLog)
  }

  lemma ArrivedOnly(n: Node, action: Action)
    requires n.ep.Valid() && Sendable(n.ep.unreliableQueue) && !action.Deliver?
    ensures Act(n, action).arrived == n.arrived && Act(n, action).reliableAccepted == n.reliableAccepted
  {
  }

  lemma AcceptedLogged(w: World)
    requires FullInv(w)
    ensures forall id :: id in w.b.reliableAccepted ==> 0 <= id < |w.a.reliableLog|
  {
    hide Inv, Retries, Applied;
  }

  lemma LogGrows(n: Node, action: Action)
    requires n.ep.Valid() && Sendable(n.ep.unreliableQueue)
    ensures n.unreliableLog <= Act(n, action).unreliableLog
  {
    hide AckBits, FlushReliable, FlushUnreliable, Resent, FirstMissing, Endpoint.IsDuplicate, Endpoint.IsTooOld, Endpoint.Read;
  }

  lemma StepAtA(done: seq<Step>, w: World, step: Step)
    requires FullInv(w) && Ready(w) && Allowed(w, step) && step.atA && StepsInv(done, w)
    ensures StepsInv(done + [step], Next(w, step))
  {
    hide Inv, Retries, Act, AllowedAt, NoneReturns, Arrived, HandedOver;
    ActForward(w.a, w.b, step.action);
    LogGrows(w.a, step.action);
    AcceptedLogged(w);
    HandedOverStep(done, step);
  }

  /** What a delivery adds to the history of the unordered messages. */
  lemma DeliverArrives(n: Node, c: Copy)
    requires n.ep.Valid()
    ensures var later, taken := n.Deliver(c), !c.packet.reliable || (!c.packet.ordered && !n.ep.IsDuplicate(c.packet) && !n.ep.IsTooOld(c.packet));
      && later.arrived == n.arrived + (if taken then [c] else [])
      && later.reliableAccepted == n.reliableAccepted + (if taken && c.packet.reliable then {c.id} else {})
  {
    hide FirstMissing, Drain, Endpoint.IsDuplicate, Endpoint.IsTooOld, Endpoint.Valid, Window.Insert, Packets.Acknowledge;
  }

  /** A reliable unordered copy is taken iff it is the first one to arrive. */
  lemma TakenIffFirst(done: seq<Step>, w: World, c: Copy)
    requires FullInv(w) && Ready(w) && AllowedAt(w.b, w.a, Action.Deliver(c)) && StepsInv(done, w)
    requires c.packet.reliable && !c.packet.ordered
    ensures 0 <= c.id < |w.a.reliableLog| && w.a.reliableLog[c.id] == c
    ensures w.b.ep.IsDuplicate(c.packet) || w.b.ep.IsTooOld(c.packet) <==> Arrival(c) in done
  {
    hide Inv, Retries, Applied, Classifiable, Endpoint.IsDuplicate, Endpoint.IsTooOld, HandedOver;
    InvIsSymmetric(w.a, w.b);
    CopyOnNet(w.b, w.a, c);
    if w.b.ep.IsDuplicate(c.packet) || w.b.ep.IsTooOld(c.packet) {
      TurnedAway(w.b, w.a, c);
    } else {
      NotAccepted(w.b, w.a, c);
    }
  }

  lemma NotAccepted(n: Node, p: Node, c: Copy)
    requires Inv(n, p) && n.ep.Valid() && Classifiable(n.reliableTop, c.id)
    requires 0 <= c.id < |p.reliableLog| && p.reliableLog[c.id] == c && c.packet.reliable && !c.packet.ordered
    requires !n.ep.IsDuplicate(c.packet) && !n.ep.IsTooOld(c.packet)
    ensures c.id !in n.reliableAccepted
  {
    hide NodeInv, ReliableInv, OrderedInv, Classifiable, Endpoint.IsDuplicate, Endpoint.IsTooOld;
    AcceptReliableKeeps(n, p, c);
  }

  lemma DeliverAtBStep(done: seq<Step>, w: World, c: Copy)
    requires FullInv(w) && Ready(w) && AllowedAt(w.b, w.a, Action.Deliver(c)) && StepsInv(done, w)
    requires MadeInv(w.a)
    ensures StepsInv(done + [Arrival(c)], w.(b := w.b.Deliver(c)))
  {
    hide Inv, Retries, Arrived, Endpoint.IsDuplicate, Endpoint.IsTooOld, HandedOver, Node.Deliver, Classifiable, UnreliableFrom;
    DeliverArrives(w.b, c);
    HandedOverStep(done, Arrival(c));
    if c.packet.reliable && !c.packet.ordered {
      TakenIffFirst(done, w, c);
    }
  }

  lemma StepsStep(done: seq<Step>, w: World, step: Step)
    requires FullInv(w) && Ready(w) && Allowed(w, step) && StepsInv(done, w)
    requires MadeInv(w.a)
    ensures StepsInv(done + [step], Next(w, step))
  {
    hide Inv, Retries, Arrived, AllowedAt, HandedOver, Node.Deliver, MadeInv;
    if step.atA {
      StepAtA(done, w, step);
    } else if step.action.Deliver? {
      DeliverAtBStep(done, w, step.action.copy);
    } else {
      hide Act;
      ArrivedOnly(w.b, step.action);
      HandedOverStep(done, step);
    }
  }

  lemma {:induction false} StepsRun(done: seq<Step>, w: World, steps: seq<Step>, end: World)
    requires FullInv(w) && MadeInv(w.a) && MadeInv(w.b) && Runs(w, steps, end) && StepsInv(done, w)
    ensures StepsInv(done + steps, end)
    decreases |steps|
  {
    hide WorldInv, HistoryInv, StepsInv, Allowed, Next, MadeInv;
    if steps == [] {
      assert done + steps == done;
    } else {
      FullStepKeeps(w, steps[0]);
      StepMakes(w, steps[0]);
      StepsStep(done, w, steps[0]);
      StepsRun(done + [steps[0]], Next(w, steps[0]), steps[1..], end);
      assert (done + [steps[0]]) + steps[1..] == done + steps;
    }
  }

  lemma {:induction false} HandedOverArrived(steps: seq<Step>, c: Copy)
    requires c in HandedOver(steps)
    ensures Arrival(c) in steps && (c.packet.reliable ==> !c.packet.ordered)
  {
    var before, step := steps[..|steps| - 1], steps[|steps| - 1];
    if c in HandedOver(before) {
      HandedOverArrived(before, c);
    } else {
      assert step == Arrival(c);
    }
  }

  /**
   * In every run, what `b` has been handed without order are, in the order of delivery, the messages of
   * every unreliable packet delivered and of the first copy of every reliable one: nothing overtakes.
   */
  lemma UnorderedInOrder(configA: Config, configB: Config, steps: seq<Step>, w: World)
    requires Runs(Start(configA, configB), steps, w)
    ensures w.b.unorderedRead + w.b.ep.unorderedRecv == LogContents(HandedOver(steps))
    ensures forall c :: c in HandedOver(steps) ==>
      if c.packet.reliable then 0 <= c.id < |w.a.reliableLog| && w.a.reliableLog[c.id] == c
      else c.packet in w.a.unreliableLog
  {
    hide Runs, Inv, HistoryInv, HandedOver, MadeInv;
    FullInvInitially(configA, configB);
    FullRunKeeps(Start(configA, configB), steps, w);
    NothingHandedOver(configA, configB);
    StepsRun([], Start(configA, configB), steps, w);
    assert [] + steps == steps;
    StreamOfArrived(w);
    forall c | c in HandedOver(steps) ensures Arrival(c) in steps && (c.packet.reliable ==> !c.packet.ordered) {
      HandedOverArrived(steps, c);
    }
  }

  lemma NothingHandedOver(configA: Config, configB: Config)
    ensures StepsInv([], Start(configA, configB))
    ensures MadeInv(NewNode(configA)) && MadeInv(NewNode(configB))
  {
  }

  lemma StreamOfArrived(w: World)
    requires WorldInv(w)
    ensures w.b.unorderedRead + w.b.ep.unorderedRecv == LogContents(w.b.arrived)
  {
    hide StreamsInv, AllSound, NetInv, QueuedInv, LogContents;
  }
}

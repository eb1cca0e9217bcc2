/** Which states can come to rest, with everything that was written handed over. */
module Quiescence {
  import opened Windows
  import opened Packing
  import opened Flushing
  import opened Endpoints
  import opened Network
  import opened Streams
  import opened Delivery
  import opened Invariants
  import opened InvariantDelivers
  import opened Safety
  import opened Histories
  import opened Progress

  /** Rounds from empty rings on, until the queues are empty as well. */
  lemma {:induction false} Rounds(w: World, before: seq<Step>, now: World) returns (steps: seq<Step>, end: World)
    requires Leads(w, before, now) && CanReach(now.a, now.b)
    requires now.a.ep.reliableSent.entries == map[] && now.a.ep.orderedSent.entries == map[]
    requires now.a.ep.unreliableQueue == [] && now.a.ep.unreliablePackets == []
    ensures Leads(w, steps, end) && !end.a.ep.HasWork()
    ensures SameWritten(now.a, end.a)
    decreases |now.a.ep.reliableQueue| + |now.a.ep.orderedQueue|
  {
    hide Leads, CanReach;
    steps, end := before, now;
    if now.a.ep.reliableQueue != [] || now.a.ep.orderedQueue != [] {
      var first, middle := Round(w, before, now);
      steps, end := Rounds(w, first, middle);
    }
  }

  /** `y` has been handed everything that `x` has written reliably, in order for the ordered messages. */
  ghost predicate AllArrived(x: Node, y: Node) {
    && y.orderedRead + y.ep.orderedRecv == x.orderedWritten
    && y.reliableDelivered == multiset(x.reliableWritten)
  }

  lemma AtRestAllArrived(x: Node, y: Node)
    requires Inv(x, y) && !x.ep.HasWork()
    ensures AllArrived(x, y)
  {
    hide NodeInv, OrderedInv, ReliableInv;
    OrderedComplete(x, y);
    ReliableComplete(x, y);
  }

  /**
   * From every reachable state in which what is pending can still reach `b` there is a continuation that
   * the network, the clock and the retries allow, after which `a` has no work and `b` has everything.
   */
  lemma EverythingArrives(w: World) returns (steps: seq<Step>, end: World)
    requires Reachable(w) && CanReach(w.a, w.b)
    ensures Runs(w, steps, end) && !end.a.ep.HasWork()
    ensures SameWritten(w.a, end.a) && AllArrived(end.a, end.b)
  {
    hide CanReach, Inv, HistoryInv, Reachable, Ready, AllArrived, Endpoint.HasWork;
    ReachableFullInv(w);
    WorldIsReady(w);
    LeadsNowhere(w);
    var first, middle := Round(w, [], w);
    steps, end := Rounds(w, first, middle);
    EndOfRun(w, steps, end);
    AtRestAllArrived(end.a, end.b);
  }

  // ---------------------------------------------------------------- what cannot reach the peer

  lemma {:induction false} RunsForward(w: World, steps: seq<Step>, end: World)
    requires FullInv(w) && Runs(w, steps, end)
    ensures Forward(w.a, end.a)
    decreases |steps|
  {
    hide Inv, Forward, Retries, Arrived, Act, AllowedAt;
    if steps == [] {
      StandsStill(w.a);
    } else {
      var next := Next(w, steps[0]);
      FullStepKeeps(w, steps[0]);
      if steps[0].atA {
        ActForward(w.a, w.b, steps[0].action);
      } else {
        StandsStill(w.a);
      }
      RunsForward(next, steps[1..], end);
      ForwardTwice(w.a, next.a, end.a);
    }
  }

  /** A packet that `y` still needs carries an acknowledgement too late for `y`. */
  ghost predicate Stuck(x: Node, y: Node, id: int, isOrdered: bool) {
    var log, accepted := if isOrdered then x.orderedLog else x.reliableLog, if isOrdered then y.orderedAccepted else y.reliableAccepted;
    0 <= id < |log| && id !in accepted && !Timely(log[id], y)
  }

  lemma StuckAtSender(n: Node, p: Node, action: Action, id: int, isOrdered: bool)
    requires Inv(n, p) && n.ep.Valid() && Sendable(n.ep.unreliableQueue) && Retries(n)
    requires AllowedAt(n, p, action) && Stuck(n, p, id, isOrdered)
    ensures Stuck(Act(n, action), p, id, isOrdered)
  {
    hide Inv, Retries, Act, AllowedAt, Timely, NoneReturns;
    ActForward(n, p, action);
  }

  /** Such a packet is never accepted: only a copy with the same acknowledgement could arrive. */
  lemma StuckAtReceiver(n: Node, p: Node, action: Action, id: int, isOrdered: bool)
    requires Inv(n, p) && n.ep.Valid() && Sendable(n.ep.unreliableQueue) && Retries(n)
    requires AllowedAt(n, p, action) && Stuck(p, n, id, isOrdered)
    ensures Stuck(p, Act(n, action), id, isOrdered)
  {
    hide Inv, Retries, Act, Classifiable, Endpoint.IsDuplicate, Endpoint.IsTooOld, NoneReturns, LastRetry, Node.Prepare;
    ActForward(n, p, action);
    if action.Deliver? && action.copy.packet.reliable && !n.ep.IsDuplicate(action.copy.packet) && !n.ep.IsTooOld(action.copy.packet) {
      var c := action.copy;
      CopyOnNet(n, p, c);
      ActIsDeliver(n, c);
      AcceptFacts(n, c);
    } else {
      OthersAcceptNothing(n, action);
    }
  }

  lemma {:induction false} StuckForEver(w: World, steps: seq<Step>, end: World, id: int, isOrdered: bool)
    requires FullInv(w) && Runs(w, steps, end) && Stuck(w.a, w.b, id, isOrdered)
    ensures Stuck(end.a, end.b, id, isOrdered)
    decreases |steps|
  {
    hide Inv, Retries, Arrived, Act, AllowedAt, Stuck;
    if steps != [] {
      FullStepKeeps(w, steps[0]);
      if steps[0].atA {
        StuckAtSender(w.a, w.b, steps[0].action, id, isOrdered);
      } else {
        InvIsSymmetric(w.a, w.b);
        StuckAtReceiver(w.b, w.a, steps[0].action, id, isOrdered);
      }
      StuckForEver(Next(w, steps[0]), steps[1..], end, id, isOrdered);
    }
  }

  lemma StuckHasWork(x: Node, y: Node, id: int, isOrdered: bool)
    requires Inv(x, y) && Stuck(x, y, id, isOrdered)
    ensures x.ep.HasWork()
  {
    hide NodeInv, LogInv, HoldsLog, ReceiveInv, ReleasedInv, LogContents, SumAccepted, Timely;
  }

  lemma FirstArrived(sent: Window<Pending>, log: seq<Copy>, net: set<Copy>, accepted: set<int>, y: Node)
    requires NothingLost(sent, log, accepted) && sent.entries == map[] && log != []
    requires ArrivedInv(log, net, accepted, y)
    ensures exists c :: c in log && c in net
  {
    hide Applied;
    assert 0 in accepted;
    assert log[0] in log;
  }

  /** With a count of one retry a stream at rest has never been written to. */
  lemma OneRetrySendsNothing(sent: Window<Pending>, log: seq<Copy>, net: set<Copy>, accepted: set<int>, y: Node)
    requires NothingLost(sent, log, accepted) && sent.entries == map[]
    requires RetriesInv(sent, log, net, 1) && ArrivedInv(log, net, accepted, y)
    ensures log == []
  {
    if log != [] {
      FirstArrived(sent, log, net, accepted, y);
    }
  }

  lemma EmptyLogEmptyRing(sent: Window<Pending>, log: seq<Copy>)
    requires HoldsLog(sent, log) && log == []
    ensures sent.entries == map[]
  {
    if k :| k in sent.entries {
      var id := KeyHasId(sent, -1, k);
    }
  }

  /** If a stream with a count of one retry is at rest later, there was nothing pending or queued. */
  lemma OneRetryAtRest(n: Node, m: Node, x: Node, y: Node)
    requires Inv(n, m) && Inv(x, y) && HistoryInv(x, y) && Forward(n, x) && !x.ep.HasWork()
    ensures n.config.maxReliableRetries == 1 ==> n.ep.reliableSent.entries == map[] && n.ep.reliableQueue == []
    ensures n.config.maxOrderedRetries == 1 ==> n.ep.orderedSent.entries == map[] && n.ep.orderedQueue == []
  {
    hide NodeInv, LogInv, HoldsLog, NothingLost, ReceiveInv, ReleasedInv, SumAccepted, RetriesInv, ArrivedInv, NoneReturns;
    if n.config.maxReliableRetries == 1 {
      OneRetrySendsNothing(x.ep.reliableSent, x.reliableLog, x.net, y.reliableAccepted, y);
      assert n.reliableWritten == [];
      EmptyLogEmptyRing(n.ep.reliableSent, n.reliableLog);
    }
    if n.config.maxOrderedRetries == 1 {
      OneRetrySendsNothing(x.ep.orderedSent, x.orderedLog, x.net, y.orderedAccepted, y);
      assert n.orderedWritten == [];
      EmptyLogEmptyRing(n.ep.orderedSent, n.orderedLog);
    }
  }

  /** A state from which `a` comes to rest is one in which what is pending can reach `b`. */
  lemma RestNeedsReach(w: World, steps: seq<Step>, end: World)
    requires Reachable(w) && Runs(w, steps, end) && !end.a.ep.HasWork()
    ensures CanReach(w.a, w.b)
  {
    hide Inv, HistoryInv, Forward, Timely, Reachable, Runs, Endpoint.HasWork;
    ReachableFullInv(w);
    FullRunKeeps(w, steps, end);
    RunsForward(w, steps, end);
    OneRetryAtRest(w.a, w.b, end.a, end.b);
    forall id, isOrdered | Stuck(w.a, w.b, id, isOrdered) ensures false {
      StuckForEver(w, steps, end, id, isOrdered);
      StuckHasWork(end.a, end.b, id, isOrdered);
    }
    NotStuck(w);
  }

  lemma NotStuck(w: World)
    requires forall id, isOrdered :: !Stuck(w.a, w.b, id, isOrdered)
    requires WorldInv(w)
    ensures Fresh(w.a.ep.reliableSent, w.a.reliableLog, w.b.reliableAccepted, w.b)
    ensures Fresh(w.a.ep.orderedSent, w.a.orderedLog, w.b.orderedAccepted, w.b)
  {
    hide Inv, Timely;
    forall id | InUse(w.a.ep.reliableSent, |w.a.reliableLog| - 1, id) && 0 <= id && id !in w.b.reliableAccepted
      ensures Timely(w.a.reliableLog[id], w.b)
    {
      assert !Stuck(w.a, w.b, id, false);
    }
    forall id | InUse(w.a.ep.orderedSent, |w.a.orderedLog| - 1, id) && 0 <= id && id !in w.b.orderedAccepted
      ensures Timely(w.a.orderedLog[id], w.b)
    {
      assert !Stuck(w.a, w.b, id, true);
    }
  }

  /**
   * From a reachable state `a` can come to rest iff each packet pending there that `b` still needs is not
   * too late, and nothing is pending or queued on a stream whose packets are dropped once they are sent.
   */
  lemma CanComeToRestIff(w: World)
    requires Reachable(w)
    ensures (exists steps, end :: Runs(w, steps, end) && !end.a.ep.HasWork()) <==> CanReach(w.a, w.b)
  {
    hide Reachable, Runs, CanReach, Endpoint.HasWork, AllArrived;
    if CanReach(w.a, w.b) {
      var steps, end := EverythingArrives(w);
    } else if steps, end :| Runs(w, steps, end) && !end.a.ep.HasWork() {
      RestNeedsReach(w, steps, end);
    }
  }

  // ---------------------------------------------------------------- the other direction

  /** The same steps with the two sides exchanged. */
  function Mirror(steps: seq<Step>): seq<Step> {
    if steps == [] then [] else [Step(!steps[0].atA, steps[0].action)] + Mirror(steps[1..])
  }

  lemma {:induction false} RunsMirrored(w: World, steps: seq<Step>, end: World)
    requires Runs(w, steps, end)
    ensures Runs(w.Flip(), Mirror(steps), end.Flip())
    decreases |steps|
  {
    hide AllowedAt, Act;
    if steps != [] {
      RunsMirrored(Next(w, steps[0]), steps[1..], end);
      assert Mirror(steps)[1..] == Mirror(steps[1..]);
    }
  }

  lemma ReachableMirrored(w: World)
    requires Reachable(w)
    ensures Reachable(w.Flip())
  {
    hide Runs;
    var configA, configB, steps :| Runs(Start(configA, configB), steps, w);
    RunsMirrored(Start(configA, configB), steps, w);
    assert Start(configA, configB).Flip() == Start(configB, configA);
  }

  /** The same for everything `b` has written: neither side is special. */
  lemma EverythingArrivesAtA(w: World) returns (steps: seq<Step>, end: World)
    requires Reachable(w) && CanReach(w.b, w.a)
    ensures Runs(w, steps, end) && !end.b.ep.HasWork()
    ensures SameWritten(w.b, end.b) && AllArrived(end.b, end.a)
  {
    hide CanReach, Reachable, Runs, AllArrived, Endpoint.HasWork;
    ReachableMirrored(w);
    var there, over := EverythingArrives(w.Flip());
    RunsMirrored(w.Flip(), there, over);
    steps, end := Mirror(there), over.Flip();
  }

  // ---------------------------------------------------------------- both sides

  lemma LeadsMirrored(w: World, steps: seq<Step>, end: World)
    requires Leads(w, steps, end)
    ensures Leads(w.Flip(), Mirror(steps), end.Flip())
  {
    hide Inv, Retries, Arrived, Runs;
    InvIsSymmetric(end.a, end.b);
    RunsMirrored(w, steps, end);
  }

  /** A round of `b`. */
  lemma RoundAtB(w: World, before: seq<Step>, now: World) returns (steps: seq<Step>, end: World)
    requires Leads(w, before, now) && CanReach(now.b, now.a)
    ensures Leads(w, steps, end) && RoundDone(now.Flip(), end.Flip())
    ensures CanReachAfter(now.Flip()) ==> CanReach(end.a, end.b)
  {
    hide Leads, CanReach, RoundDone, CanReachAfter;
    LeadsMirrored(w, before, now);
    var there, over := Round(w.Flip(), Mirror(before), now.Flip());
    LeadsMirrored(w.Flip(), there, over);
    steps, end := Mirror(there), over.Flip();
  }

  /** The messages still queued at both sides. */
  function Queued(w: World): nat {
    |w.a.ep.reliableQueue| + |w.a.ep.orderedQueue| + |w.b.ep.reliableQueue| + |w.b.ep.orderedQueue|
  }

  /** `b` has nothing pending, and what is pending or queued can reach the other side. */
  ghost predicate Alternating(now: World) {
    && CanReach(now.a, now.b) && CanReach(now.b, now.a)
    && now.b.ep.reliableSent.entries == map[] && now.b.ep.orderedSent.entries == map[]
  }

  /** A sender with empty rings can reach its peer also after the peer has filled its own. */
  lemma EmptyReachesAfter(now: World)
    requires Ready(now) && CanReach(now.b, now.a)
    requires now.b.ep.reliableSent.entries == map[] && now.b.ep.orderedSent.entries == map[]
    ensures CanReachAfter(now)
  {
    hide Node.Prepare, Timely;
  }

  /** One round of `a` and one of `b`. */
  lemma BothRounds(w: World, before: seq<Step>, now: World) returns (steps: seq<Step>, end: World)
    requires Leads(w, before, now) && CanReach(now.a, now.b) && CanReachAfter(now)
    ensures Leads(w, steps, end) && Alternating(end)
    ensures SameWritten(now.a, end.a) && SameWritten(now.b, end.b)
    ensures Queued(end) <= Queued(now)
    ensures Alternating(now) && Queued(now) > 0 ==> Queued(end) < Queued(now)
    ensures Queued(now) == 0 ==> !end.a.ep.HasWork() && !end.b.ep.HasWork()
  {
    hide Leads, CanReach, CanReachAfter, Inv, HistoryInv, Endpoint.Valid, Sendable;
    var first, middle := Round(w, before, now);
    EndOfRun(w, first, middle);
    EmptyReachesAfter(middle.Flip());
    steps, end := RoundAtB(w, first, middle);
  }

  /** Rounds of both sides until nothing is queued, and one more. */
  lemma {:induction false} AlternateRounds(w: World, before: seq<Step>, now: World) returns (steps: seq<Step>, end: World)
    requires Leads(w, before, now) && Alternating(now)
    ensures Leads(w, steps, end) && !end.a.ep.HasWork() && !end.b.ep.HasWork()
    ensures SameWritten(now.a, end.a) && SameWritten(now.b, end.b)
    decreases Queued(now)
  {
    hide Leads, CanReach, CanReachAfter, Inv, HistoryInv, Ready, Endpoint.HasWork;
    EndOfRun(w, before, now);
    EmptyReachesAfter(now);
    steps, end := BothRounds(w, before, now);
    if Queued(now) > 0 {
      steps, end := AlternateRounds(w, steps, end);
    }
  }

  /**
   * From a reachable state in which what is pending at either side can still reach the other one, for `b`
   * also after the next flush of `a`, both sides can come to rest, each with everything the other has written.
   */
  lemma BothComeToRest(w: World) returns (steps: seq<Step>, end: World)
    requires Reachable(w) && CanReach(w.a, w.b) && CanReachAfter(w)
    ensures Runs(w, steps, end) && !end.a.ep.HasWork() && !end.b.ep.HasWork()
    ensures SameWritten(w.a, end.a) && AllArrived(end.a, end.b)
    ensures SameWritten(w.b, end.b) && AllArrived(end.b, end.a)
  {
    hide CanReach, CanReachAfter, Inv, HistoryInv, Reachable, Ready, AllArrived, Endpoint.HasWork, Queued;
    ReachableFullInv(w);
    WorldIsReady(w);
    LeadsNowhere(w);
    var first, middle := BothRounds(w, [], w);
    steps, end := AlternateRounds(w, first, middle);
    EndOfRun(w, steps, end);
    AtRestAllArrived(end.a, end.b);
    AtRestAllArrived(end.b, end.a);
  }
}

/** What one `send` hands to the socket: whether it is anything at all, and in which order. */
module Transmissions {
  import opened WrappingIds
  import opened Windows
  import opened Packets
  import opened Packing
  import opened Flushing
  import opened Endpoints
  import opened Network
  import opened Streams
  import opened Invariants
  import opened InvariantSends
  import opened Safety
  import opened Histories

  // ---------------------------------------------------------------- whether anything is sent

  lemma OutputIffEntries(sent: Window<Pending>)
    requires IsRing(sent)
    ensures sent.Output(ResendIfNeeded(sent.entries.Keys), 32) != [] <==> sent.entries != map[]
  {
    var out := sent.Output(ResendIfNeeded(sent.entries.Keys), 32);
    if out != [] {
      OutputIsDue(sent, sent.entries.Keys, 32, out[0]);
    }
    if k :| k in sent.entries {
      OutputIsDue(sent, sent.entries.Keys, 32, sent.entries[k].packet);
    } else {
      assert sent.entries == map[];
    }
  }

  lemma FlushFillsRing(sent: Window<Pending>, reliable: Window<()>, ordered: Window<Packet>,
                       queue: seq<Msg>, isOrdered: bool, retries: usize)
    requires IsRing(sent) && IsRing(reliable) && IsRing(ordered)
    ensures FlushReliable(sent, reliable, ordered, queue, isOrdered, retries).window.entries != map[]
       <==> sent.entries != map[] || queue != []
  {
    hide AckBits, FittingCount;
    var r := FlushReliable(sent, reliable, ordered, queue, isOrdered, retries);
    FlushKeepsPending(sent, reliable, ordered, queue, isOrdered, retries);
    if sent.entries == map[] && queue != [] {
      var n, pending := FirstFlush(sent, reliable, ordered, queue, isOrdered, retries);
      assert |r.window.entries| > 0;
    }
    if k :| k in sent.entries {
      assert k in r.window.entries;
    }
  }

  /** `has_work` says yes iff a `send` with everything pending due would hand a packet to the socket, heartbeats apart. */
  lemma HasWorkIff(e: Endpoint, config: Config)
    requires e.Valid() && Sendable(e.unreliableQueue)
    ensures var q := e.(duplicate := false).Prepare(config);
      e.HasWork() <==> q.Transmitted(q.reliableSent.entries.Keys, q.orderedSent.entries.Keys) != []
  {
    hide AckBits, FlushReliable, Window.Output;
    var q := e.(duplicate := false).Prepare(config);
    FlushFillsRing(e.reliableSent, e.reliableReceived, e.orderedReceived, e.reliableQueue, false, config.maxReliableRetries);
    FlushFillsRing(e.orderedSent, e.reliableReceived, e.orderedReceived, e.orderedQueue, true, config.maxOrderedRetries);
    OutputIffEntries(q.reliableSent);
    OutputIffEntries(q.orderedSent);
    UnreliableIffQueued(e.unreliableId, e.reliableReceived, e.orderedReceived, e.unreliableQueue);
  }

  lemma UnreliableIffQueued(id: u16, reliable: Window<()>, ordered: Window<Packet>, queue: seq<Msg>)
    requires IsRing(reliable) && IsRing(ordered) && Sendable(queue)
    ensures FlushUnreliable(id, reliable, ordered, queue) != [] <==> queue != []
  {
  }

  /** There is work after each of the writes. */
  lemma WritesAreWork(n: Node, m: Msg)
    requires n.ep.Valid()
    ensures n.Write(m).ep.HasWork() && n.WriteReliable(m).ep.HasWork()
    ensures n.WriteOrdered(m).ep.HasWork() && n.WriteHeartbeat().ep.HasWork()
  {
    hide AckBits;
    assert n.ep.unreliableQueue + [m] != [] && n.ep.reliableQueue + [m] != [] && n.ep.orderedQueue + [m] != [];
  }

  /**
   * The unreliable packets that wait after a flush: those that did before, the split of the queue, and one
   * heartbeat iff a packet was turned away and nothing was queued at all.
   */
  lemma WaitingAfterPrepare(e: Endpoint, config: Config)
    requires e.Valid() && Sendable(e.unreliableQueue)
    ensures var q := e.Prepare(config);
      && |q.unreliablePackets| == |e.unreliablePackets| + |Split(e.unreliableQueue)|
           + (if e.duplicate && e.reliableQueue == [] && e.orderedQueue == [] && e.unreliableQueue == [] then 1 else 0)
      && e.unreliablePackets <= q.unreliablePackets && q.unreliableQueue == [] && !q.duplicate
  {
    hide AckBits, FlushReliable, FlushUnreliable, Split;
    FlushUnreliableIsSplit(e.unreliableId, e.reliableReceived, e.orderedReceived, e.unreliableQueue);
    FlushUnreliableIsSplit(WrappingAdd(e.unreliableId, 1), e.reliableReceived, e.orderedReceived, e.unreliableQueue);
  }

  // ---------------------------------------------------------------- the order of what is sent

  /** Every packet of a send ring belongs to the stream of the ring and is held under its own id. */
  ghost predicate OwnKeys(sent: Window<Pending>, isOrdered: bool) {
    IsRing(sent) && forall k :: k in sent.entries ==>
      var p := sent.entries[k].packet; p.ack.sequenceId == k && p.reliable && p.ordered == isOrdered
  }

  /** The unordered reliable packets come first, the unreliable ones last. */
  function Rank(p: Packet): nat {
    if !p.reliable then 2 else if p.ordered then 1 else 0
  }

  /** The packets of one stream, each older than all that follow. */
  ghost predicate OldestFirst(packets: seq<Packet>, newest: u16, rank: nat) {
    && (forall i :: 0 <= i < |packets| ==> Rank(packets[i]) == rank)
    && (forall i, j :: 0 <= i < j < |packets| ==>
          WrappingSub(newest, packets[i].ack.sequenceId) > WrappingSub(newest, packets[j].ack.sequenceId))
  }

  lemma {:induction false} OutputInOrder(sent: Window<Pending>, due: set<u16>, c: nat, isOrdered: bool)
    requires OwnKeys(sent, isOrdered) && c <= 32
    ensures var out := sent.Output(ResendIfNeeded(due), c);
      && OldestFirst(out, sent.newest, if isOrdered then 1 else 0)
      && forall i :: 0 <= i < |out| ==> WrappingSub(sent.newest, out[i].ack.sequenceId) < c
    decreases c
  {
    if c > 0 {
      OutputInOrder(sent, due, c - 1, isOrdered);
      assert WrappingSub(sent.newest, WrappingSub(sent.newest, c - 1)) == c - 1;
    }
  }

  /**
   * The due packets of the unordered stream, oldest first, then those of the ordered stream, oldest first,
   * then the unreliable packets as they were queued: nothing else, and each due packet once.
   */
  ghost predicate InOrder(e: Endpoint, reliableDue: set<u16>, orderedDue: set<u16>, out: seq<Packet>) {
    && |e.unreliablePackets| <= |out|
    && out[|out| - |e.unreliablePackets|..] == e.unreliablePackets
    && (forall i, j :: 0 <= i < j < |out| ==> Rank(out[i]) <= Rank(out[j]))
    && (forall i, j :: 0 <= i < j < |out| && Rank(out[i]) == Rank(out[j]) == 0 ==>
          WrappingSub(e.reliableSent.newest, out[i].ack.sequenceId) > WrappingSub(e.reliableSent.newest, out[j].ack.sequenceId))
    && (forall i, j :: 0 <= i < j < |out| && Rank(out[i]) == Rank(out[j]) == 1 ==>
          WrappingSub(e.orderedSent.newest, out[i].ack.sequenceId) > WrappingSub(e.orderedSent.newest, out[j].ack.sequenceId))
    && (forall p :: p in out && Rank(p) == 0 <==> IsDue(e.reliableSent, reliableDue, p))
    && (forall p :: p in out && Rank(p) == 1 <==> IsDue(e.orderedSent, orderedDue, p))
    && (forall p :: p in out && Rank(p) == 2 <==> p in e.unreliablePackets)
  }

  ghost predicate IsDue(sent: Window<Pending>, due: set<u16>, p: Packet) {
    exists k :: k in sent.entries && k in due && sent.entries[k].packet == p
  }

  lemma OutputIsExactlyDue(sent: Window<Pending>, due: set<u16>, isOrdered: bool)
    requires OwnKeys(sent, isOrdered)
    ensures forall p :: p in sent.Output(ResendIfNeeded(due), 32) <==> IsDue(sent, due, p)
    ensures forall p :: IsDue(sent, due, p) ==> Rank(p) == if isOrdered then 1 else 0
  {
    forall p ensures p in sent.Output(ResendIfNeeded(due), 32) <==> IsDue(sent, due, p) {
      OutputIsDue(sent, due, 32, p);
    }
  }

  lemma TransmittedInOrder(e: Endpoint, reliableDue: set<u16>, orderedDue: set<u16>)
    requires OwnKeys(e.reliableSent, false) && OwnKeys(e.orderedSent, true)
    requires forall p :: p in e.unreliablePackets ==> !p.reliable
    ensures InOrder(e, reliableDue, orderedDue, e.Transmitted(reliableDue, orderedDue))
  {
    hide Window.Output, IsDue, OwnKeys;
    var r, o := e.reliableSent.Output(ResendIfNeeded(reliableDue), 32), e.orderedSent.Output(ResendIfNeeded(orderedDue), 32);
    OutputInOrder(e.reliableSent, reliableDue, 32, false);
    OutputInOrder(e.orderedSent, orderedDue, 32, true);
    OutputIsExactlyDue(e.reliableSent, reliableDue, false);
    OutputIsExactlyDue(e.orderedSent, orderedDue, true);
    ThreeRuns(r, o, e.unreliablePackets);
  }

  lemma ThreeRuns(r: seq<Packet>, o: seq<Packet>, u: seq<Packet>)
    requires forall p :: p in r ==> Rank(p) == 0
    requires forall p :: p in o ==> Rank(p) == 1
    requires forall p :: p in u ==> Rank(p) == 2
    ensures var out := r + o + u;
      && out[|out| - |u|..] == u
      && (forall i :: 0 <= i < |r| ==> out[i] == r[i] && Rank(out[i]) == 0)
      && (forall i :: |r| <= i < |r| + |o| ==> out[i] == o[i - |r|] && Rank(out[i]) == 1)
      && (forall i :: |r| + |o| <= i < |out| ==> out[i] == u[i - |r| - |o|] && Rank(out[i]) == 2)
  {
    hide Rank;
    var out := r + o + u;
    forall i | 0 <= i < |out|
      ensures i < |r| ==> out[i] in r
      ensures |r| <= i < |r| + |o| ==> out[i] in o
      ensures |r| + |o| <= i ==> out[i] in u
    {
    }
  }

  lemma HeldUnderOwnKeys(sent: Window<Pending>, log: seq<Copy>, isOrdered: bool)
    requires HoldsLog(sent, log) && LogInv(log, isOrdered)
    ensures OwnKeys(sent, isOrdered)
  {
    forall k | k in sent.entries
      ensures var p := sent.entries[k].packet; p.ack.sequenceId == k && p.reliable && p.ordered == isOrdered
    {
      var id := KeyHasId(sent, |log| - 1, k);
    }
  }

  lemma WaitingAreUnreliable(queued: seq<Copy>, packets: seq<Packet>, written: seq<Msg>)
    requires QueuedInv(queued, packets, written)
    ensures forall p :: p in packets ==> !p.reliable
  {
    forall p | p in packets ensures !p.reliable {
      var i :| 0 <= i < |packets| && packets[i] == p;
      assert queued[i].packet == p;
    }
  }

  /** In every run, every `send` of either side hands its packets to the socket in that order. */
  lemma SendsInOrder(w: World, n: Node, p: Node, reliableDue: set<u16>, orderedDue: set<u16>)
    requires Reachable(w) && Sides(w, n, p)
    requires n.ep.Valid() && Sendable(n.ep.unreliableQueue)
    ensures var e := n.ep.Prepare(n.config); InOrder(e, reliableDue, orderedDue, e.Transmitted(reliableDue, orderedDue))
  {
    hide Inv, HoldsLog, LogInv, QueuedInv, NetInv, AllSound, Reachable, InOrder, Node.Prepare;
    SidesInv(w, n, p);
    PrepareKeeps(n, p);
    var q := n.Prepare();
    SendFacts(q, p);
    HeldUnderOwnKeys(q.ep.reliableSent, q.reliableLog, false);
    HeldUnderOwnKeys(q.ep.orderedSent, q.orderedLog, true);
    WaitingAreUnreliable(q.queued, q.ep.unreliablePackets, q.unreliableWritten);
    TransmittedInOrder(q.ep, reliableDue, orderedDue);
  }
}

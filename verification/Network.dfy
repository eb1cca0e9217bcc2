/**
 * Two communicators and an unreliable network between them. The network is a set of copies that only
 * grows, so a copy may be delivered any number of times, in any order, or never.
 */
module Network {
  import opened WrappingIds
  import opened Windows
  import opened Packets
  import opened Packing
  import opened Flushing
  import opened Endpoints

  /**
   * A packet with what it stands for: the unbounded id of a reliable packet, and the newest ids its
   * maker had accepted when it built the acknowledgement.
   */
  datatype Copy = Copy(id: int, packet: Packet, ackReliable: int, ackOrdered: int)

  /** The messages of a log of packets, in order. */
  function LogContents(log: seq<Copy>): seq<Msg> {
    if log == [] then [] else LogContents(log[..|log| - 1]) + log[|log| - 1].packet.messages
  }

  /** The first id from `from` on that has not been accepted. */
  function FirstMissing(accepted: set<int>, from: int, top: int): (id: int)
    ensures from <= id && (from <= top + 1 ==> id <= top + 1)
    ensures forall i :: from <= i < id ==> i in accepted
    ensures id <= top ==> id !in accepted
    decreases top + 1 - from
  {
    if from <= top && from in accepted then FirstMissing(accepted, from + 1, top) else from
  }

  function Max(x: int, y: int): int {
    if x < y then y else x
  }

  /** A communicator with the history of what went in and out of it. */
  datatype Node = Node(
    ep: Endpoint,
    config: Config,
    reliableLog: seq<Copy>,
    orderedLog: seq<Copy>,
    queued: seq<Copy>,
    net: set<Copy>,
    reliableWritten: seq<Msg>,
    orderedWritten: seq<Msg>,
    unreliableWritten: seq<Msg>,
    reliableAccepted: set<int>,
    orderedAccepted: set<int>,
    reliableTop: int,
    orderedTop: int,
    readTop: int,
    orderedRead: seq<Msg>,
    unorderedRead: seq<Msg>,
    arrived: seq<Copy>,
    unreliableLog: seq<Packet>,
    reliableDelivered: multiset<Msg>,
    unreliableDelivered: multiset<Msg>)
  {
    /** Packets made now, the first of them with the id `first`. */
    function Stamp(packets: seq<Packet>, first: int): (copies: seq<Copy>)
      ensures |copies| == |packets|
      ensures forall i :: 0 <= i < |packets| ==> copies[i] == Copy(first + i, packets[i], reliableTop, orderedTop)
    {
      seq(|packets|, i requires 0 <= i < |packets| => Copy(first + i, packets[i], reliableTop, orderedTop))
    }

    function Write(m: Msg): Node {
      this.(ep := ep.(unreliableQueue := ep.unreliableQueue + [m]), unreliableWritten := unreliableWritten + [m])
    }

    function WriteReliable(m: Msg): Node {
      this.(ep := ep.(reliableQueue := ep.reliableQueue + [m]), reliableWritten := reliableWritten + [m])
    }

    function WriteOrdered(m: Msg): Node {
      this.(ep := ep.(orderedQueue := ep.orderedQueue + [m]), orderedWritten := orderedWritten + [m])
    }

    function WriteHeartbeat(): Node
      requires ep.Valid()
    {
      var packet := Heartbeat(NewAck(ep.unreliableId, ep.reliableReceived, ep.orderedReceived));
      this.(ep := ep.WriteHeartbeat(), queued := queued + Stamp([packet], -1), unreliableLog := unreliableLog + [packet])
    }

    function MaybeHeartbeat(): Node
      requires ep.Valid()
    {
      var n := if ep.duplicate && ep.reliableQueue == [] && ep.orderedQueue == [] && ep.unreliableQueue == []
               then WriteHeartbeat() else this;
      n.(ep := n.ep.(duplicate := false))
    }

    function FlushReliableQueue(): Node
      requires ep.Valid()
    {
      var r := FlushReliable(ep.reliableSent, ep.reliableReceived, ep.orderedReceived, ep.reliableQueue, false, config.maxReliableRetries);
      this.(ep := ep.FlushReliableQueue(config), reliableLog := reliableLog + Stamp(r.made, |reliableLog|))
    }

    function FlushOrderedQueue(): Node
      requires ep.Valid()
    {
      var r := FlushReliable(ep.orderedSent, ep.reliableReceived, ep.orderedReceived, ep.orderedQueue, true, config.maxOrderedRetries);
      this.(ep := ep.FlushOrderedQueue(config), orderedLog := orderedLog + Stamp(r.made, |orderedLog|))
    }

    function FlushUnreliableQueue(): Node
      requires ep.Valid() && Sendable(ep.unreliableQueue)
    {
      var made := FlushUnreliable(ep.unreliableId, ep.reliableReceived, ep.orderedReceived, ep.unreliableQueue);
      this.(ep := ep.FlushUnreliableQueue(), queued := queued + Stamp(made, -1), unreliableLog := unreliableLog + made)
    }

    /** Everything `send` does before it hands packets to the socket. */
    function Prepare(): (n: Node)
      requires ep.Valid() && Sendable(ep.unreliableQueue)
      ensures n.ep == ep.Prepare(config)
      ensures n.config == config
    {
      MaybeHeartbeat().FlushReliableQueue().FlushOrderedQueue().FlushUnreliableQueue()
    }

    function Transmit(reliableDue: set<u16>, orderedDue: set<u16>): Node {
      this.(ep := ep.SendPackets(reliableDue, orderedDue), queued := [],
            net := net + Resent(ep.reliableSent, reliableLog, reliableDue) + Resent(ep.orderedSent, orderedLog, orderedDue)
                   + (set c | c in queued))
    }

    function Send(reliableDue: set<u16>, orderedDue: set<u16>): (n: Node)
      requires ep.Valid() && Sendable(ep.unreliableQueue)
      ensures n.ep == ep.Send(config, reliableDue, orderedDue)
    {
      Prepare().Transmit(reliableDue, orderedDue)
    }

    /** A copy reaches this node with a correct checksum. */
    function Deliver(c: Copy): (n: Node)
      requires ep.Valid()
      ensures n.ep == ep.Read(c.packet)
    {
      var n := this.(ep := ep.Read(c.packet));
      if !c.packet.reliable then
        n.(arrived := arrived + [c], unreliableDelivered := unreliableDelivered + multiset(c.packet.messages))
      else if ep.IsDuplicate(c.packet) || ep.IsTooOld(c.packet) then n
      else if c.packet.ordered then
        var accepted, top := orderedAccepted + {c.id}, Max(orderedTop, c.id);
        n.(orderedAccepted := accepted, orderedTop := top, readTop := FirstMissing(accepted, readTop, top))
      else
        n.(arrived := arrived + [c],
           reliableAccepted := reliableAccepted + {c.id}, reliableTop := Max(reliableTop, c.id),
           reliableDelivered := reliableDelivered + multiset(c.packet.messages))
    }

    function ReadOrdered(): Node {
      if ep.orderedRecv == [] then this
      else this.(ep := ep.(orderedRecv := ep.orderedRecv[1..]), orderedRead := orderedRead + [ep.orderedRecv[0]])
    }

    function ReadUnordered(): Node {
      if ep.unorderedRecv == [] then this
      else this.(ep := ep.(unorderedRecv := ep.unorderedRecv[1..]), unorderedRead := unorderedRead + [ep.unorderedRecv[0]])
    }
  }

  /** The copies a send ring puts on the network when the ids in `due` have waited long enough. */
  function Resent(sent: Window<Pending>, log: seq<Copy>, due: set<u16>): set<Copy> {
    set k | k in sent.entries && k in due :: CopyOf(sent, log, k)
  }

  function CopyOf(sent: Window<Pending>, log: seq<Copy>, k: u16): Copy
    requires k in sent.entries
  {
    var id := |log| - 1 - WrappingSub(sent.newest, k);
    if 0 <= id < |log| then log[id].(packet := sent.entries[k].packet) else Copy(id, sent.entries[k].packet, -1, -1)
  }

  function NewNode(config: Config): Node {
    Node(NewEndpoint(), config, [], [], [], {}, [], [], [], {}, {}, -1, -1, 0, [], [], [], [], multiset{}, multiset{})
  }

  datatype Action =
    | Write(m: Msg)
    | WriteReliable(m: Msg)
    | WriteOrdered(m: Msg)
    | WriteHeartbeat
    | Send(reliableDue: set<u16>, orderedDue: set<u16>)
    | Deliver(copy: Copy)
    | ReadOrdered
    | ReadUnordered

  /** The step in which `c` arrives at `b`. */
  function Arrival(c: Copy): Step {
    Step(false, Action.Deliver(c))
  }

  datatype World = World(a: Node, b: Node) {
    function Flip(): World {
      World(b, a)
    }
  }

  /** One thing that happens, at node `a` if `atA` and at node `b` otherwise. */
  datatype Step = Step(atA: bool, action: Action)

  /**
   * The oldest id the too-old test tells apart from a new one: within 95 of the newest accepted id,
   * or further back but with no wrap of the 16-bit id in between.
   */
  predicate Classifiable(top: int, id: int) {
    id >= top - 95 || (id > top - 65503 && id / 65536 == (top - 31) / 65536)
  }

  /** A pending packet in `due` is about to use up its last retry. */
  predicate LastRetry(sent: Window<Pending>, due: set<u16>) {
    exists k :: k in sent.entries && k in due && sent.entries[k].remainingRetries == 1
  }

  /** What the network, the clock and the user are assumed to do at node `n` with the peer `peer`. */
  ghost predicate AllowedAt(n: Node, peer: Node, action: Action)
    requires n.ep.Valid() && Sendable(n.ep.unreliableQueue)
  {
    match action
    // every message fits into a packet
    case Write(m) => |m| <= MAX_PACKET_DATA_LEN
    case WriteReliable(m) => |m| <= MAX_PACKET_DATA_LEN
    case WriteOrdered(m) => |m| <= MAX_PACKET_DATA_LEN
    case WriteHeartbeat => true
    // no packet runs out of retries
    case Send(reliableDue, orderedDue) =>
      var p := n.ep.Prepare(n.config);
      !LastRetry(p.reliableSent, reliableDue) && !LastRetry(p.orderedSent, orderedDue)
    // only what was sent arrives, and neither the packet nor its acknowledgement is too late
    case Deliver(c) =>
      && c in peer.net
      && (c.packet.reliable ==> Classifiable(if c.packet.ordered then n.orderedTop else n.reliableTop, c.id))
      && |n.reliableLog| - 1 - c.ackReliable <= 65504
      && |n.orderedLog| - 1 - c.ackOrdered <= 65504
    case ReadOrdered => true
    case ReadUnordered => true
  }

  function Act(n: Node, action: Action): Node
    requires n.ep.Valid() && Sendable(n.ep.unreliableQueue)
  {
    match action
    case Write(m) => n.Write(m)
    case WriteReliable(m) => n.WriteReliable(m)
    case WriteOrdered(m) => n.WriteOrdered(m)
    case WriteHeartbeat => n.WriteHeartbeat()
    case Send(reliableDue, orderedDue) => n.Send(reliableDue, orderedDue)
    case Deliver(c) => n.Deliver(c)
    case ReadOrdered => n.ReadOrdered()
    case ReadUnordered => n.ReadUnordered()
  }

  ghost predicate Ready(w: World) {
    && w.a.ep.Valid() && Sendable(w.a.ep.unreliableQueue)
    && w.b.ep.Valid() && Sendable(w.b.ep.unreliableQueue)
  }

  ghost predicate Allowed(w: World, step: Step)
    requires Ready(w)
  {
    if step.atA then AllowedAt(w.a, w.b, step.action) else AllowedAt(w.b, w.a, step.action)
  }

  function Next(w: World, step: Step): World
    requires Ready(w)
  {
    if step.atA then w.(a := Act(w.a, step.action)) else w.(b := Act(w.b, step.action))
  }

  /** The steps take the world `w` to the world `end`, each of them allowed where it happens. */
  ghost predicate Runs(w: World, steps: seq<Step>, end: World)
    decreases |steps|
  {
    && Ready(w)
    && if steps == [] then end == w
       else Allowed(w, steps[0]) && Runs(Next(w, steps[0]), steps[1..], end)
  }

  function Start(configA: Config, configB: Config): World {
    World(NewNode(configA), NewNode(configB))
  }

  /** The states that a run can reach. */
  ghost predicate Reachable(w: World) {
    exists configA, configB, steps :: Runs(Start(configA, configB), steps, w)
  }
}

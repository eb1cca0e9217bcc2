/** The state of one communicator as a value, and what each of its operations makes of it. */
module Endpoints {
  import opened WrappingIds
  import opened Windows
  import opened Packets
  import opened Packing
  import opened Flushing

  datatype Config = Config(maxReliableRetries: usize, maxOrderedRetries: usize)

  /** The result of the read loop over the ordered receive ring. */
  datatype Drained = Drained(window: Window<Packet>, head: u16, messages: seq<Msg>)

  /**
   * The loop over `keys`, oldest first: the packet at the read head is emptied and the head moves on,
   * an id within 32 after the head ends the loop, any other id is passed over.
   */
  function Drain(window: Window<Packet>, keys: seq<u16>, head: u16): (d: Drained)
    requires forall k :: k in keys ==> k in window.entries
    ensures d.window.entries.Keys == window.entries.Keys
    ensures d.window.newest == window.newest && d.window.n == window.n
    decreases |keys|
  {
    if keys == [] then Drained(window, head, [])
    else if keys[0] == head then
      var packet := window.entries[head];
      var rest := Drain(window.Update(head, packet.(messages := [])), keys[1..], WrappingAdd(head, 1));
      rest.(messages := packet.messages + rest.messages)
    else if WrappingGt(keys[0], head, 32) then Drained(window, head, [])
    else Drain(window, keys[1..], head)
  }

  /** One release, for a loop that has already collected `before`. */
  lemma DrainRelease(window: Window<Packet>, keys: seq<u16>, head: u16, before: seq<Msg>)
    requires forall k :: k in keys ==> k in window.entries
    requires keys != [] && keys[0] == head
    ensures
      var packet := window.entries[head];
      var next := window.Update(head, packet.(messages := []));
      && (forall k :: k in keys[1..] ==> k in next.entries)
      && var d, rest := Drain(window, keys, head), Drain(next, keys[1..], WrappingAdd(head, 1));
      && rest.window == d.window && rest.head == d.head
      && (before + packet.messages) + rest.messages == before + d.messages
  {
  }

  datatype Endpoint = Endpoint(
    reliableSent: Window<Pending>,
    orderedSent: Window<Pending>,
    reliableReceived: Window<()>,
    orderedReceived: Window<Packet>,
    readHead: u16,
    unreliableId: u16,
    unreliablePackets: seq<Packet>,
    reliableQueue: seq<Msg>,
    orderedQueue: seq<Msg>,
    unreliableQueue: seq<Msg>,
    unorderedRecv: seq<Msg>,
    orderedRecv: seq<Msg>,
    duplicate: bool)
  {
    ghost predicate Valid() {
      IsRing(reliableSent) && IsRing(orderedSent) && IsRing(reliableReceived) && IsRing(orderedReceived)
    }

    /** Drop from both send rings what the peer has acknowledged. */
    function Acknowledge(ack: PacketAck): (e: Endpoint)
      ensures Valid() ==> e.Valid()
    {
      this.(reliableSent := Packets.Acknowledge(reliableSent, ack.reliableNewest, ack.reliableBits),
            orderedSent := Packets.Acknowledge(orderedSent, ack.orderedNewest, ack.orderedBits))
    }

    predicate IsDuplicate(packet: Packet) {
      if packet.ordered then orderedReceived.Get(packet.ack.sequenceId).Some?
      else reliableReceived.Get(packet.ack.sequenceId).Some?
    }

    predicate IsTooOld(packet: Packet) {
      var newest := if packet.ordered then orderedReceived.newest else reliableReceived.newest;
      WrappingGt(WrappingSub(newest, 31), packet.ack.sequenceId, 64)
    }

    /** A packet whose checksum is right has come in. */
    function Read(packet: Packet): (e: Endpoint)
      requires Valid()
      ensures e.Valid()
    {
      if !packet.reliable then this.(unorderedRecv := unorderedRecv + packet.messages).Acknowledge(packet.ack)
      else if IsDuplicate(packet) || IsTooOld(packet) then this.(duplicate := true)
      else if packet.ordered then Acknowledge(packet.ack).AcceptOrdered(packet)
      else Acknowledge(packet.ack).AcceptReliable(packet)
    }

    function AcceptReliable(packet: Packet): (e: Endpoint)
      requires Valid()
      ensures e.Valid()
    {
      reliableReceived.InsertIsValid(packet.ack.sequenceId, ());
      this.(reliableReceived := reliableReceived.Insert(packet.ack.sequenceId, ()),
            unorderedRecv := unorderedRecv + packet.messages)
    }

    function AcceptOrdered(packet: Packet): (e: Endpoint)
      requires Valid()
      ensures e.Valid()
    {
      orderedReceived.InsertIsValid(packet.ack.sequenceId, packet);
      var window := orderedReceived.Insert(packet.ack.sequenceId, packet);
      window.KeysAreChronological(32);
      var drained := Drain(window, window.KeysFrom(32), readHead);
      this.(orderedReceived := drained.window, readHead := drained.head, orderedRecv := orderedRecv + drained.messages)
    }

    /** An empty packet that carries an acknowledgement is queued for sending. */
    function WriteHeartbeat(): (e: Endpoint)
      requires Valid()
      ensures e.Valid()
    {
      var packet := Heartbeat(NewAck(unreliableId, reliableReceived, orderedReceived));
      this.(unreliableId := WrappingAdd(unreliableId, 1), unreliablePackets := unreliablePackets + [packet])
    }

    function FlushReliableQueue(config: Config): (e: Endpoint)
      requires Valid()
      ensures e.Valid()
    {
      var r := FlushReliable(reliableSent, reliableReceived, orderedReceived, reliableQueue, false, config.maxReliableRetries);
      this.(reliableSent := r.window, reliableQueue := r.queue)
    }

    function FlushOrderedQueue(config: Config): (e: Endpoint)
      requires Valid()
      ensures e.Valid()
    {
      var r := FlushReliable(orderedSent, reliableReceived, orderedReceived, orderedQueue, true, config.maxOrderedRetries);
      this.(orderedSent := r.window, orderedQueue := r.queue)
    }

    function FlushUnreliableQueue(): (e: Endpoint)
      requires Valid() && Sendable(unreliableQueue)
      ensures e.Valid()
    {
      var made := FlushUnreliable(unreliableId, reliableReceived, orderedReceived, unreliableQueue);
      this.(unreliableQueue := [], unreliableId := Advance(unreliableId, |made|),
            unreliablePackets := unreliablePackets + made)
    }

    /** All three queues become packets, as far as the send rings have room. */
    function FlushMessages(config: Config): (e: Endpoint)
      requires Valid() && Sendable(unreliableQueue)
      ensures e.Valid()
    {
      FlushReliableQueue(config).FlushOrderedQueue(config).FlushUnreliableQueue()
    }

    /** What `SendPackets` hands to the socket, in order. */
    function Transmitted(reliableDue: set<u16>, orderedDue: set<u16>): seq<Packet> {
      reliableSent.Output(ResendIfNeeded(reliableDue), 32)
        + orderedSent.Output(ResendIfNeeded(orderedDue), 32)
        + unreliablePackets
    }

    function SendPackets(reliableDue: set<u16>, orderedDue: set<u16>): (e: Endpoint)
      ensures Valid() ==> e.Valid()
    {
      this.(reliableSent := reliableSent.Retain(ResendIfNeeded(reliableDue)),
            orderedSent := orderedSent.Retain(ResendIfNeeded(orderedDue)),
            unreliablePackets := [])
    }

    /** The first part of `send`: a heartbeat if a duplicate came in and nothing is queued, then the flush. */
    function Prepare(config: Config): (e: Endpoint)
      requires Valid() && Sendable(unreliableQueue)
      ensures e.Valid()
    {
      var e := if duplicate && reliableQueue == [] && orderedQueue == [] && unreliableQueue == []
               then WriteHeartbeat() else this;
      e.(duplicate := false).FlushMessages(config)
    }

    function Send(config: Config, reliableDue: set<u16>, orderedDue: set<u16>): (e: Endpoint)
      requires Valid() && Sendable(unreliableQueue)
      ensures e.Valid()
    {
      Prepare(config).SendPackets(reliableDue, orderedDue)
    }

    predicate HasWork() {
      !(&& reliableSent.entries == map[]
        && orderedSent.entries == map[]
        && unreliablePackets == []
        && reliableQueue == []
        && orderedQueue == []
        && unreliableQueue == [])
    }
  }

  function NewEndpoint(): (e: Endpoint)
    ensures e.Valid()
  {
    Endpoint(Empty(SLOTS), Empty(SLOTS), Empty(SLOTS), Empty(SLOTS), 0, 0, [], [], [], [], [], [], false)
  }
}

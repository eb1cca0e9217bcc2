/** The communicator as the program runs it: rings over arrays, queues and flags updated in place. */
module Communicators {
  import opened Options
  import opened WrappingIds
  import opened RingSlots
  import opened RingBuffers
  import opened Packets
  import opened Packing
  import opened Flushing
  import opened Endpoints

  /** The bitfield that acknowledges the contents of a receive ring. */
  method BuildAckBits<T>(received: RingBuffer<T>) returns (bits: nat)
    requires received.Valid() && received.items.Length == SLOTS
    ensures bits == AckBits(received.View())
  {
    ghost var all := AckBits(received.View());
    ghost var rest := received.View().KeysFrom(32);
    var newest := received.Newest();
    bits := 0;
    var iter := new RingIter(received);
    var next := iter.Next();
    while next.Some?
      invariant iter.Valid() && iter.ring == received
      invariant next.Some? ==> WrappingSub(newest, next.value.0) < 32
      invariant next.Some? ==> rest != [] && next.value.0 == rest[0] && iter.Remaining() == rest[1..]
      invariant next.None? ==> rest == []
      invariant KeyBits(bits, newest, rest) == all
      decreases |rest|
    {
      bits := SetBit(bits, WrappingSub(newest, next.value.0));
      rest := rest[1..];
      next := iter.Next();
    }
  }

  /** The flush loop of a reliable queue, on its send ring. */
  method FlushQueue(sent: RingBuffer<Pending>, reliable: RingBuffer<()>, ordered: RingBuffer<Packet>,
                    queue: seq<Msg>, isOrdered: bool, retries: usize) returns (left: seq<Msg>)
    requires sent.Valid() && reliable.Valid() && ordered.Valid()
    requires sent.items.Length == reliable.items.Length == ordered.items.Length == SLOTS
    modifies sent, sent.items
    ensures var r := FlushReliable(old(sent.View()), reliable.View(), ordered.View(), queue, isOrdered, retries);
      sent.View() == r.window && left == r.queue
  {
    left := queue;
    ghost var r := FlushReliable(sent.View(), reliable.View(), ordered.View(), queue, isOrdered, retries);
    while !sent.PushWillOverride() && left != []
      invariant var now := FlushReliable(sent.View(), reliable.View(), ordered.View(), left, isOrdered, retries);
        now.window == r.window && now.queue == r.queue
      decreases (sent.View().EntryCount(); SLOTS - |sent.View().entries|)
    {
      ghost var n, pending := FirstFlush(sent.View(), reliable.View(), ordered.View(), left, isOrdered, retries);
      var included := CountFitting(left);
      var id := sent.Next();
      var packet := BuildPacket(id, reliable, ordered, true, isOrdered, left[..included]);
      var _ := sent.Push(Pending(retries, packet));
      left := left[included..];
    }
  }

  /** A packet with a fresh acknowledgement of the two receive rings. */
  method BuildPacket(id: u16, reliable: RingBuffer<()>, ordered: RingBuffer<Packet>,
                     isReliable: bool, isOrdered: bool, messages: seq<Msg>) returns (packet: Packet)
    requires reliable.Valid() && ordered.Valid()
    requires reliable.items.Length == ordered.items.Length == SLOTS
    ensures packet == Packet(NewAck(id, reliable.View(), ordered.View()), isReliable, isOrdered, messages)
  {
    var reliableBits := BuildAckBits(reliable);
    var orderedBits := BuildAckBits(ordered);
    packet := Packet(PacketAck(id, reliable.Newest(), reliableBits, ordered.Newest(), orderedBits),
                     isReliable, isOrdered, messages);
  }

  /** The loop that turns the whole unreliable queue into packets. */
  method MakeUnreliable(id: u16, reliable: RingBuffer<()>, ordered: RingBuffer<Packet>, queue: seq<Msg>)
    returns (nextId: u16, packets: seq<Packet>)
    requires reliable.Valid() && ordered.Valid() && Sendable(queue)
    requires reliable.items.Length == ordered.items.Length == SLOTS
    ensures packets == FlushUnreliable(id, reliable.View(), ordered.View(), queue)
    ensures nextId == Advance(id, |packets|)
  {
    ghost var r, o := reliable.View(), ordered.View();
    ghost var all := FlushUnreliable(id, r, o, queue);
    var left := queue;
    nextId, packets := id, [];
    while left != []
      invariant Sendable(left)
      invariant packets + FlushUnreliable(nextId, r, o, left) == all
      invariant Advance(nextId, |FlushUnreliable(nextId, r, o, left)|) == Advance(id, |all|)
      decreases |left|
    {
      var included := CountFitting(left);
      var packet := BuildPacket(nextId, reliable, ordered, false, false, left[..included]);
      FlushUnreliableStep(nextId, r, o, left, packets);
      nextId := WrappingAdd(nextId, 1);
      left := left[included..];
      packets := packets + [packet];
    }
  }

  /**
   * The loop over the ordered receive ring that releases packets from the read head on. It stops at
   * the first id that is within 32 after the head.
   */
  method DrainRing(ring: RingBuffer<Packet>, readHead: u16) returns (head: u16, messages: seq<Msg>)
    requires ring.Valid() && ring.items.Length == SLOTS
    modifies ring.items
    ensures var w := old(ring.View());
      && (forall k :: k in w.KeysFrom(32) ==> k in w.entries)
      && var d := Drain(w, w.KeysFrom(32), readHead);
      ring.View() == d.window && head == d.head && messages == d.messages
  {
    hide ViewOf;
    ghost var w := ring.View();
    w.KeysAreChronological(32);
    ghost var rest := w.KeysFrom(32);
    ghost var d := Drain(w, rest, readHead);
    head, messages := readHead, [];
    var iter := new RingIter(ring);
    var next := iter.Next();
    while next.Some?
      invariant iter.Valid() && iter.ring == ring
      invariant forall k :: k in rest ==> k in ring.View().entries
      invariant next.Some? ==>
                  && rest != [] && next.value.0 == rest[0] && iter.Remaining() == rest[1..]
                  && next.value.1 == ring.View().entries[rest[0]]
      invariant next.None? ==> rest == []
      invariant var now := Drain(ring.View(), rest, head);
        now.window == d.window && now.head == d.head && messages + now.messages == d.messages
      decreases |rest|
    {
      var (id, packet) := next.value;
      if id == head {
        DrainRelease(ring.View(), rest, head, messages);
        head := WrappingAdd(head, 1);
        messages := messages + packet.messages;
        ghost var before := ring.View();
        ring.Update(id, packet.(messages := []));
        before.SameKeys(ring.View(), iter.Left());
      } else if WrappingGt(id, head, 32) {
        return;
      }
      rest := rest[1..];
      next := iter.Next();
    }
  }

  class Communicator {
    const reliableSent: RingBuffer<Pending>
    const orderedSent: RingBuffer<Pending>
    const reliableReceived: RingBuffer<()>
    const orderedReceived: RingBuffer<Packet>
    /** The sequence id of the next ordered packet to be read. */
    var readHead: u16
    var unreliableId: u16
    var unreliablePackets: seq<Packet>
    var reliableQueue: seq<Msg>
    var orderedQueue: seq<Msg>
    var unreliableQueue: seq<Msg>
    var unorderedRecv: seq<Msg>
    var orderedRecv: seq<Msg>
    /** A packet came in more than once, so the peer may be missing an acknowledgement. */
    var duplicate: bool

    ghost function Repr(): set<object> {
      {this, reliableSent, reliableSent.items, orderedSent, orderedSent.items,
       reliableReceived, reliableReceived.items, orderedReceived, orderedReceived.items}
    }

    ghost predicate Valid() {
      && reliableSent.Valid() && orderedSent.Valid() && reliableReceived.Valid() && orderedReceived.Valid()
      && reliableSent.items.Length == orderedSent.items.Length == SLOTS
      && reliableReceived.items.Length == orderedReceived.items.Length == SLOTS
      && reliableSent != orderedSent && reliableSent.items != orderedSent.items
    }

    ghost function State(): (e: Endpoint)
      requires Valid()
      reads Repr()
      ensures e.Valid()
    {
      Endpoint(reliableSent.View(), orderedSent.View(), reliableReceived.View(), orderedReceived.View(),
               readHead, unreliableId, unreliablePackets, reliableQueue, orderedQueue, unreliableQueue,
               unorderedRecv, orderedRecv, duplicate)
    }

    constructor ()
      ensures Valid() && fresh(Repr())
      ensures State() == NewEndpoint()
    {
      reliableSent := new RingBuffer(SLOTS);
      orderedSent := new RingBuffer(SLOTS);
      reliableReceived := new RingBuffer(SLOTS);
      orderedReceived := new RingBuffer(SLOTS);
      readHead, unreliableId, unreliablePackets := 0, 0, [];
      reliableQueue, orderedQueue, unreliableQueue := [], [], [];
      unorderedRecv, orderedRecv, duplicate := [], [], false;
    }

    method Write(message: Msg)
      requires Valid()
      modifies this
      ensures State() == old(State()).(unreliableQueue := old(unreliableQueue) + [message])
    {
      unreliableQueue := unreliableQueue + [message];
    }

    method WriteReliable(message: Msg)
      requires Valid()
      modifies this
      ensures State() == old(State()).(reliableQueue := old(reliableQueue) + [message])
    {
      reliableQueue := reliableQueue + [message];
    }

    method WriteOrdered(message: Msg)
      requires Valid()
      modifies this
      ensures State() == old(State()).(orderedQueue := old(orderedQueue) + [message])
    {
      orderedQueue := orderedQueue + [message];
    }

    method WriteHeartbeat()
      requires Valid()
      modifies this
      ensures State() == old(State()).WriteHeartbeat()
    {
      var packet := BuildPacket(unreliableId, reliableReceived, orderedReceived, false, false, []);
      unreliableId := WrappingAdd(unreliableId, 1);
      unreliablePackets := unreliablePackets + [packet];
    }

    method Acknowledge(ack: PacketAck)
      requires Valid()
      modifies reliableSent.items, orderedSent.items
      ensures State() == old(State()).Acknowledge(ack)
    {
      hide AcknowledgeFirst, Packets.Acknowledge, Has, ViewOf;
      ghost var r, o := reliableSent.View(), orderedSent.View();
      AcknowledgeEnds(r, ack.reliableNewest, ack.reliableBits);
      AcknowledgeEnds(o, ack.orderedNewest, ack.orderedBits);
      for i := 0 to 32
        invariant reliableSent.View() == AcknowledgeFirst(r, ack.reliableNewest, ack.reliableBits, i)
        invariant orderedSent.View() == AcknowledgeFirst(o, ack.orderedNewest, ack.orderedBits, i)
      {
        AcknowledgeStep(r, ack.reliableNewest, ack.reliableBits, i);
        AcknowledgeStep(o, ack.orderedNewest, ack.orderedBits, i);
        if Has(ack.reliableBits, i) {
          var _ := reliableSent.Take(WrappingSub(ack.reliableNewest, i));
        }
        if Has(ack.orderedBits, i) {
          var _ := orderedSent.Take(WrappingSub(ack.orderedNewest, i));
        }
      }
    }

    /** A packet with a correct checksum has been received. */
    method ReadPacket(packet: Packet)
      requires Valid()
      modifies Repr()
      ensures State() == old(State()).Read(packet)
    {
      hide Drain, AcknowledgeFirst;
      if !packet.reliable {
        unorderedRecv := unorderedRecv + packet.messages;
        Acknowledge(packet.ack);
        return;
      }
      if (packet.ordered && orderedReceived.Get(packet.ack.sequenceId).Some?)
         || (!packet.ordered && reliableReceived.Get(packet.ack.sequenceId).Some?)
      {
        duplicate := true;
        return;
      }
      var newest := if packet.ordered then orderedReceived.Newest() else reliableReceived.Newest();
      if WrappingGt(WrappingSub(newest, 31), packet.ack.sequenceId, 64) {
        duplicate := true;
        return;
      }
      Acknowledge(packet.ack);
      if packet.ordered {
        orderedReceived.Insert(packet.ack.sequenceId, packet);
        var messages;
        readHead, messages := DrainRing(orderedReceived, readHead);
        orderedRecv := orderedRecv + messages;
      } else {
        reliableReceived.Insert(packet.ack.sequenceId, ());
        unorderedRecv := unorderedRecv + packet.messages;
      }
    }

    method FlushReliableQueue(config: Config)
      requires Valid()
      modifies this, reliableSent, reliableSent.items
      ensures unreliableQueue == old(unreliableQueue)
      ensures State() == old(State()).FlushReliableQueue(config)
    {
      reliableQueue := FlushQueue(reliableSent, reliableReceived, orderedReceived, reliableQueue, false, config.maxReliableRetries);
    }

    method FlushOrderedQueue(config: Config)
      requires Valid()
      modifies this, orderedSent, orderedSent.items
      ensures unreliableQueue == old(unreliableQueue)
      ensures State() == old(State()).FlushOrderedQueue(config)
    {
      orderedQueue := FlushQueue(orderedSent, reliableReceived, orderedReceived, orderedQueue, true, config.maxOrderedRetries);
    }

    method FlushUnreliableQueue()
      requires Valid() && Sendable(unreliableQueue)
      modifies this
      ensures State() == old(State()).FlushUnreliableQueue()
    {
      var nextId, packets := MakeUnreliable(unreliableId, reliableReceived, orderedReceived, unreliableQueue);
      unreliableId, unreliablePackets, unreliableQueue := nextId, unreliablePackets + packets, [];
    }

    method FlushMessages(config: Config)
      requires Valid() && Sendable(unreliableQueue)
      modifies this, reliableSent, reliableSent.items, orderedSent, orderedSent.items
      ensures State() == old(State()).FlushMessages(config)
    {
      FlushReliableQueue(config);
      FlushOrderedQueue(config);
      FlushUnreliableQueue();
    }

    /** Hand over to the socket what is due and everything unreliable. */
    method SendPackets(reliableDue: set<u16>, orderedDue: set<u16>) returns (out: seq<Packet>)
      requires Valid()
      modifies this, reliableSent.items, orderedSent.items
      ensures State() == old(State()).SendPackets(reliableDue, orderedDue)
      ensures out == old(State()).Transmitted(reliableDue, orderedDue)
    {
      var r := reliableSent.Retain(ResendIfNeeded(reliableDue));
      var o := orderedSent.Retain(ResendIfNeeded(orderedDue));
      out := r + o + unreliablePackets;
      unreliablePackets := [];
    }

    method Send(config: Config, reliableDue: set<u16>, orderedDue: set<u16>) returns (out: seq<Packet>)
      requires Valid() && Sendable(unreliableQueue)
      modifies Repr()
      ensures State() == old(State()).Send(config, reliableDue, orderedDue)
      ensures out == old(State()).Prepare(config).Transmitted(reliableDue, orderedDue)
    {
      if duplicate && reliableQueue == [] && orderedQueue == [] && unreliableQueue == [] {
        WriteHeartbeat();
      }
      duplicate := false;
      FlushMessages(config);
      out := SendPackets(reliableDue, orderedDue);
    }

    method ReadUnordered() returns (r: Option<Msg>)
      requires Valid()
      modifies this
      ensures r == if old(unorderedRecv) == [] then None else Some(old(unorderedRecv)[0])
      ensures State() == old(State()).(unorderedRecv := if r == None then [] else old(unorderedRecv)[1..])
    {
      r := None;
      if unorderedRecv != [] {
        r := Some(unorderedRecv[0]);
        unorderedRecv := unorderedRecv[1..];
      }
    }

    method ReadOrdered() returns (r: Option<Msg>)
      requires Valid()
      modifies this
      ensures r == if old(orderedRecv) == [] then None else Some(old(orderedRecv)[0])
      ensures State() == old(State()).(orderedRecv := if r == None then [] else old(orderedRecv)[1..])
    {
      r := None;
      if orderedRecv != [] {
        r := Some(orderedRecv[0]);
        orderedRecv := orderedRecv[1..];
      }
    }

    predicate HasWork()
      requires Valid()
      reads Repr()
      ensures HasWork() <==> State().HasWork()
    {
      !(&& reliableSent.IsEmpty()
        && orderedSent.IsEmpty()
        && unreliablePackets == []
        && reliableQueue == []
        && orderedQueue == []
        && unreliableQueue == [])
    }
  }
}

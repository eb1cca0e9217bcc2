/** Where the assumptions about the network, the retries and the message sizes come from: each is exact. */
module Limits {
  import opened WrappingIds
  import opened Windows
  import opened Packets
  import opened Flushing
  import opened Endpoints
  import opened Network
  import opened Streams

  // ---------------------------------------------------------------- late packets

  /** The newest of the ids at least 32 behind `top` that `id` looks like on the wire. */
  function Seen(top: int, id: int): (late: int)
    ensures Wire(late) == Wire(id) && top - 65568 < late <= top - 32
  {
    IdBelow(top - 32, Wire(id))
  }

  /** For an id that has left the ring, however long ago, the too-old test recognises it iff what it looks like is classifiable. */
  lemma TooOldIff(top: int, id: int)
    requires id <= top - 32
    ensures WrappingGt(WrappingSub(Wire(top), 31), Wire(id), 64) <==> Classifiable(top, Seen(top, id))
  {
    var late := Seen(top, id);
    var x: int, y: int := Wire(top - 31), Wire(late);
    Distance(top, top - 31);
    assert WrappingSub(Wire(top), 31) == x;
    assert top - 31 == 65536 * ((top - 31) / 65536) + x && late == 65536 * (late / 65536) + y;
  }

  /** What becomes of a ring into which a late id is inserted that was neither held nor recognised as too old. */
  function AfterLate<T>(w: Window<T>, top: int, late: int, item: T): Window<T> {
    var k := Wire(late);
    // nothing of the ring is left
    if late >= top - 65504 then Window(SLOTS, k, map[k := item])
    // it is taken for an id up to 31 ahead
    else if late > top - 65536 then Window(SLOTS, k, (map j | j in w.entries && WrappingSub(k, j) < 32 :: w.entries[j])[k := item])
    // it fills a gap of the ring
    else w.(entries := w.entries[k := item])
  }

  lemma LateInsert<T>(w: Window<T>, top: int, late: int, item: T)
    requires IsRing(w) && w.newest == Wire(top)
    requires top - 65568 < late <= top - 32
    ensures w.Insert(Wire(late), item) == AfterLate(w, top, late, item)
  {
    var k := Wire(late);
    if late > top - 65536 {
      Distance(top, late);
      forall j | j in w.entries ensures late >= top - 65504 ==> WrappingSub(k, j) >= 32 {
        var i := KeyHasId(w, top, j);
        Distance(i, late);
      }
    } else {
      Distance(top, late + 65536);
      assert Wire(late + 65536) == k;
      assert forall j :: j in w.entries ==> w.Covers(j);
    }
  }

  /**
   * A late copy of a reliable packet is turned away iff its id is held by the ring, by the packet it is
   * mistaken for, or what it looks like is classifiable.
   */
  lemma LateCopyTurnedAwayIff(e: Endpoint, top: int, id: int, packet: Packet)
    requires e.Valid() && packet.reliable && packet.ack.sequenceId == Wire(id) && id <= top - 32
    requires Wire(top) == if packet.ordered then e.orderedReceived.newest else e.reliableReceived.newest
    ensures e.Read(packet) == e.(duplicate := true) <==>
      || (if packet.ordered then Wire(id) in e.orderedReceived.entries else Wire(id) in e.reliableReceived.entries)
      || Classifiable(top, Seen(top, id))
  {
    hide WrappingGt, Classifiable, Drain, Packets.Acknowledge;
    TooOldIff(top, id);
    if e.Read(packet) == e.(duplicate := true) && !e.IsDuplicate(packet) && !e.IsTooOld(packet) {
      if packet.ordered {
        assert Wire(id) in e.Read(packet).orderedReceived.entries;
      } else {
        assert Wire(id) in e.Read(packet).reliableReceived.entries;
      }
    }
  }

  /** A late copy without order that is not turned away hands its messages over once more. */
  lemma LateReliableCopy(e: Endpoint, top: int, id: int, packet: Packet)
    requires e.Valid() && packet.reliable && !packet.ordered && packet.ack.sequenceId == Wire(id) && id <= top - 32
    requires e.reliableReceived.newest == Wire(top) && Wire(id) !in e.reliableReceived.entries
    requires !Classifiable(top, Seen(top, id))
    ensures e.Read(packet).unorderedRecv == e.unorderedRecv + packet.messages
    ensures e.Read(packet).reliableReceived == AfterLate(e.reliableReceived, top, Seen(top, id), ())
  {
    hide WrappingGt, Classifiable, AfterLate, Packets.Acknowledge;
    TooOldIff(top, id);
    LateInsert(e.reliableReceived, top, Seen(top, id), ());
  }

  /**
   * A late ordered copy that is not turned away goes into the ring before the release. If that restarts
   * the ring, everything held for later is lost: nothing is released and the read head stays where it is.
   */
  lemma LateOrderedCopy(e: Endpoint, top: int, id: int, packet: Packet)
    requires e.Valid() && packet.reliable && packet.ordered && packet.ack.sequenceId == Wire(id) && id <= top - 32
    requires e.orderedReceived.newest == Wire(top) && Wire(id) !in e.orderedReceived.entries
    requires WrappingSub(e.orderedReceived.Next(), e.readHead) <= 32
    requires !Classifiable(top, Seen(top, id))
    ensures var w, after := AfterLate(e.orderedReceived, top, Seen(top, id), packet), e.Read(packet);
      && (forall k :: k in w.KeysFrom(32) ==> k in w.entries)
      && var d := Drain(w, w.KeysFrom(32), e.readHead);
      && after.orderedReceived == d.window && after.readHead == d.head && after.orderedRecv == e.orderedRecv + d.messages
      && (Seen(top, id) >= top - 65504 ==>
            after.orderedReceived == w && after.readHead == e.readHead && after.orderedRecv == e.orderedRecv)
  {
    hide WrappingGt, Classifiable, Drain, AfterLate, Packets.Acknowledge, Window.Insert, Endpoint.AcceptOrdered;
    var late := Seen(top, id);
    TooOldIff(top, id);
    LateInsert(e.orderedReceived, top, late, packet);
    AcceptsInto(e.Acknowledge(packet.ack), packet, AfterLate(e.orderedReceived, top, late, packet));
    if late >= top - 65504 {
      RestartReleasesNothing(e.orderedReceived, top, late, packet, e.readHead);
    }
  }

  lemma AcceptsInto(e: Endpoint, packet: Packet, w: Window<Packet>)
    requires e.Valid() && w == e.orderedReceived.Insert(packet.ack.sequenceId, packet)
    ensures forall k :: k in w.KeysFrom(32) ==> k in w.entries
    ensures var d, after := Drain(w, w.KeysFrom(32), e.readHead), e.AcceptOrdered(packet);
      after.orderedReceived == d.window && after.readHead == d.head && after.orderedRecv == e.orderedRecv + d.messages
  {
    hide Drain, Window.Insert;
    w.KeysAreChronological(32);
  }

  lemma RestartReleasesNothing(before: Window<Packet>, top: int, late: int, packet: Packet, head: u16)
    requires top - 65504 <= late <= top - 32
    requires !Classifiable(top, late)
    requires WrappingSub(WrappingAdd(Wire(top), 1), head) <= 32
    ensures var w := AfterLate(before, top, late, packet);
      && (forall k :: k in w.KeysFrom(32) ==> k in w.entries)
      && Drain(w, w.KeysFrom(32), head) == Drained(w, head, [])
  {
    var w := AfterLate(before, top, late, packet);
    w.KeysAreChronological(32);
    var h := IdBelow(top + 1, head);
    NextKey(top);
    assert top - 31 <= h <= top + 1;
    WireApart(h, late);
    OnlyOneKey(w, 32);
  }

  /** Iterating over a ring that holds nothing but its newest id. */
  lemma {:induction false} OnlyOneKey<T>(w: Window<T>, c: nat)
    requires w.entries.Keys == {w.newest} && 1 <= c <= 32
    ensures w.KeysFrom(c) == [w.newest]
  {
    if c > 1 {
      OnlyOneKey(w, c - 1);
    } else {
      assert w.KeysFrom(0) == [];
    }
  }

  // ---------------------------------------------------------------- late acknowledgements

  /**
   * An acknowledgement made when `r` was the newest accepted id names no id wrongly to a sender whose
   * newest packet is `newest` iff the sender is at most 65504 ahead, or so far ahead that the ids named
   * coincide with none of its last 32.
   */
  lemma AckReadRightIff(newest: int, r: int)
    requires r <= newest
    ensures (forall id :: newest - 32 < id <= newest && WrappingSub(Wire(r), Wire(id)) < 32 ==> r - 32 < id <= r)
       <==> newest - r <= 65504 || 32 <= (newest - r) % 65536 <= 65504
  {
    var d, turns := (newest - r) % 65536, (newest - r) / 65536;
    // the newest id as the acknowledgement sees it
    assert newest - r == 65536 * turns + d;
    if newest - r <= 65504 || 32 <= d <= 65504 {
      forall id | newest - 32 < id <= newest && WrappingSub(Wire(r), Wire(id)) < 32 ensures r - 32 < id <= r {
        SeenFrom(r, id, turns);
      }
    } else if d <= 31 {
      Distance(r, r);
      assert Wire(newest - d) == Wire(r);
    } else {
      SeenFrom(r, newest, turns);
    }
  }

  /** How far before `r` the wire form of `id` appears, if `id` is `turns` full turns and a rest ahead. */
  lemma SeenFrom(r: int, id: int, turns: int)
    ensures var d := id - r - 65536 * turns;
      -65536 < d <= 65536 ==> WrappingSub(Wire(r), Wire(id)) == if d <= 0 then -d else 65536 - d
  {
    var d := id - r - 65536 * turns;
    if -65536 < d <= 65536 {
      assert Wire(id) == Wire(r + d);
      if d <= 0 {
        Distance(r, r + d);
      } else {
        Distance(r, r + d - 65536);
        assert Wire(r + d - 65536) == Wire(r + d);
      }
    }
  }

  // ---------------------------------------------------------------- retries

  /**
   * A transmission loses nothing iff every packet it sends for the last time has already been accepted
   * by the peer: a packet is dropped right after the transmission that uses up its last retry.
   */
  lemma TransmissionLosesNothingIff(sent: Window<Pending>, log: seq<Copy>, accepted: set<int>, due: set<u16>)
    requires HoldsLog(sent, log) && NothingLost(sent, log, accepted)
    ensures NothingLost(sent.Retain(ResendIfNeeded(due)), log, accepted)
       <==> forall id :: InUse(sent, |log| - 1, id) && Wire(id) in due && sent.entries[Wire(id)].remainingRetries == 1 ==> id in accepted
  {
    var after := sent.Retain(ResendIfNeeded(due));
    forall id | InUse(sent, |log| - 1, id)
      ensures InUse(after, |log| - 1, id) <==> !(Wire(id) in due && sent.entries[Wire(id)].remainingRetries == 1)
    {
    }
    if NothingLost(after, log, accepted) {
      forall id | InUse(sent, |log| - 1, id) && Wire(id) in due && sent.entries[Wire(id)].remainingRetries == 1
        ensures id in accepted
      {
        assert !InUse(after, |log| - 1, id);
      }
    }
  }

  /** How often the id `k` is due. */
  function TimesDue(dues: seq<set<u16>>, k: u16): nat {
    if dues == [] then 0 else (if k in dues[0] then 1 else 0) + TimesDue(dues[1..], k)
  }

  /** What is left of a send ring after one transmission for each set of due ids. */
  function AfterSends(sent: Window<Pending>, dues: seq<set<u16>>): Window<Pending>
    decreases |dues|
  {
    if dues == [] then sent else AfterSends(sent.Retain(ResendIfNeeded(dues[0])), dues[1..])
  }

  /** How often those transmissions hand the packet `k` to the socket. */
  function TimesSent(sent: Window<Pending>, dues: seq<set<u16>>, k: u16): nat
    decreases |dues|
  {
    if dues == [] then 0
    else |sent.OutputAt(ResendIfNeeded(dues[0]), k)| + TimesSent(sent.Retain(ResendIfNeeded(dues[0])), dues[1..], k)
  }

  /** The number of transmissions that a retry counter stands for. */
  function Transmissions(remainingRetries: usize): nat {
    if remainingRetries == 0 then 0x1_0000_0000_0000_0000 else remainingRetries
  }

  /**
   * A packet with `r` retries left is transmitted each time it is due, but at most `r` times, and it is
   * dropped right after the last of them; a counter of 0 stands for 2^64.
   */
  lemma {:induction false} RetriesMean(sent: Window<Pending>, dues: seq<set<u16>>, k: u16)
    requires k in sent.entries
    ensures var r, times := Transmissions(sent.entries[k].remainingRetries), TimesDue(dues, k);
      && TimesSent(sent, dues, k) == (if times < r then times else r)
      && (k in AfterSends(sent, dues).entries <==> times < r)
    decreases |dues|
  {
    if dues != [] {
      var after := sent.Retain(ResendIfNeeded(dues[0]));
      if k in after.entries {
        RetriesMean(after, dues[1..], k);
      } else {
        GoneIsNotSent(after, dues[1..], k);
      }
    }
  }

  lemma {:induction false} GoneIsNotSent(sent: Window<Pending>, dues: seq<set<u16>>, k: u16)
    requires k !in sent.entries
    ensures TimesSent(sent, dues, k) == 0 && k !in AfterSends(sent, dues).entries
    decreases |dues|
  {
    if dues != [] {
      GoneIsNotSent(sent.Retain(ResendIfNeeded(dues[0])), dues[1..], k);
    }
  }

  // ---------------------------------------------------------------- large messages

  /** With a free slot, a flush shortens the queue iff its first message fits into a packet. */
  lemma FlushShortensIff(sent: Window<Pending>, reliable: Window<()>, ordered: Window<Packet>,
                         queue: seq<Msg>, isOrdered: bool, retries: usize)
    requires IsRing(sent) && IsRing(reliable) && IsRing(ordered)
    requires !sent.PushWillOverride() && queue != []
    ensures |FlushReliable(sent, reliable, ordered, queue, isOrdered, retries).queue| < |queue|
       <==> |queue[0]| <= MAX_PACKET_DATA_LEN
  {
    if |queue[0]| > MAX_PACKET_DATA_LEN {
      LargeMessageBlocks(sent, reliable, ordered, queue, isOrdered, retries);
    } else {
      var n, pending := FirstFlush(sent, reliable, ordered, queue, isOrdered, retries);
      FlushKeepsMessages(sent.Push(pending), reliable, ordered, queue[n..], isOrdered, retries);
    }
  }

  /** A first message that is too large stays in the queue, and empty packets fill the ring. */
  lemma {:induction false} LargeMessageBlocks(sent: Window<Pending>, reliable: Window<()>, ordered: Window<Packet>,
                                              queue: seq<Msg>, isOrdered: bool, retries: usize)
    requires IsRing(sent) && IsRing(reliable) && IsRing(ordered)
    requires queue != [] && |queue[0]| > MAX_PACKET_DATA_LEN
    ensures var r := FlushReliable(sent, reliable, ordered, queue, isOrdered, retries);
      && r.queue == queue
      && r.window.PushWillOverride()
      && forall p :: p in r.made ==> p.messages == []
    decreases (sent.EntryCount(); SLOTS - |sent.entries|)
  {
    if !sent.PushWillOverride() {
      var n, pending := FirstFlush(sent, reliable, ordered, queue, isOrdered, retries);
      assert n == 0 && queue[n..] == queue;
      LargeMessageBlocks(sent.Push(pending), reliable, ordered, queue, isOrdered, retries);
    }
  }
}

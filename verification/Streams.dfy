/** What holds between a send ring, the log of its packets, and the ids the peer has accepted. */
module Streams {
  import opened WrappingIds
  import opened Windows
  import opened Packets
  import opened Flushing
  import opened Network

  /** The unbounded id `id` is one of the last 32 up to `top` and its slot is filled. */
  predicate InUse<T>(w: Window<T>, top: int, id: int) {
    top - 32 < id <= top && Wire(id) in w.entries
  }

  /** Packet `id` of a log carries its own id, and the flags of its stream. */
  ghost predicate LogInv(log: seq<Copy>, isOrdered: bool) {
    forall id :: 0 <= id < |log| ==>
      && log[id].id == id
      && log[id].packet.ack.sequenceId == Wire(id)
      && log[id].packet.reliable
      && log[id].packet.ordered == isOrdered
  }

  /** The send ring holds packets of the log, each under its own id. */
  ghost predicate HoldsLog(sent: Window<Pending>, log: seq<Copy>) {
    && IsRing(sent)
    && sent.newest == Wire(|log| - 1)
    && forall id :: InUse(sent, |log| - 1, id) ==> 0 <= id && sent.entries[Wire(id)].packet == log[id].packet
  }

  /** A packet leaves the send ring only if the peer has accepted it. */
  ghost predicate NothingLost(sent: Window<Pending>, log: seq<Copy>, accepted: set<int>) {
    forall id :: 0 <= id < |log| ==> id in accepted || InUse(sent, |log| - 1, id)
  }

  /** The receive ring holds exactly the accepted ones of the last 32 ids. */
  ghost predicate ReceiveInv<T>(received: Window<T>, accepted: set<int>, top: int) {
    && IsRing(received)
    && received.newest == Wire(top)
    && -1 <= top
    && (top >= 0 ==> top in accepted)
    && (forall id :: id in accepted ==> 0 <= id <= top)
    && (forall id :: InUse(received, top, id) ==> id in accepted)
    && (forall id :: id in accepted && top - 32 < id ==> InUse(received, top, id))
  }

  /** An acknowledgement made when `r` was the newest accepted id names only accepted ids. */
  ghost predicate AckSound(newest: u16, bits: nat, r: int, accepted: set<int>, top: int) {
    && newest == Wire(r)
    && -1 <= r <= top
    && forall id :: r - 32 < id <= r && Acked(newest, bits, Wire(id)) ==> id in accepted
  }

  /**
   * The two ends never drift apart by more than the ring: the newest accepted id is at most 32
   * behind the newest one sent, and everything older than that has been accepted.
   */
  lemma WindowIsTight(sent: Window<Pending>, log: seq<Copy>, accepted: set<int>, top: int)
    requires NothingLost(sent, log, accepted)
    requires forall id :: id in accepted ==> 0 <= id <= top
    requires -1 <= top < |log|
    ensures |log| - 1 - 32 <= top <= |log| - 1
    ensures forall id :: 0 <= id <= |log| - 1 - 32 ==> id in accepted
  {
    if |log| - 1 - 32 >= 0 {
      assert |log| - 1 - 32 in accepted;
    }
  }

  // ---------------------------------------------------------------- ids on the circle

  lemma Distance(top: int, id: int)
    requires 0 <= top - id < 65536
    ensures WrappingSub(Wire(top), Wire(id)) == top - id
  {
    var t: int, i: int := Wire(top), Wire(id);
    assert top == 65536 * (top / 65536) + t && id == 65536 * (id / 65536) + i;
  }

  /** A key of a ring stands for exactly one id of its window. */
  lemma KeyHasId<T>(w: Window<T>, top: int, k: u16) returns (id: int)
    requires IsRing(w) && w.newest == Wire(top) && k in w.entries
    ensures InUse(w, top, id) && Wire(id) == k
  {
    id := IdBelow(top, k);
  }

  /** The key after the newest one. */
  lemma NextKey(top: int)
    ensures WrappingAdd(Wire(top), 1) == Wire(top + 1)
  {
  }

  lemma WireApart(i: int, j: int)
    requires i != j && -65536 < i - j < 65536
    ensures Wire(i) != Wire(j)
  {
  }

  /**
   * Inserting an id at most 31 behind or 65504 ahead of the newest one keeps the ids that are still
   * among the last 32, adds that id, and nothing else.
   */
  lemma InsertById<T>(w: Window<T>, top: int, id: int, item: T)
    requires IsRing(w) && w.newest == Wire(top)
    requires top - 32 < id < top + 65504
    ensures var after, newTop := w.Insert(Wire(id), item), Max(top, id);
      && IsRing(after)
      && after.newest == Wire(newTop)
      && (forall i :: InUse(after, newTop, i) <==> i == id || (InUse(w, top, i) && newTop - 32 < i))
      && after.entries[Wire(id)] == item
      && (forall i :: InUse(after, newTop, i) && i != id ==> after.entries[Wire(i)] == w.entries[Wire(i)])
  {
    var k, after, newTop := Wire(id), w.Insert(Wire(id), item), Max(top, id);
    w.InsertIsValid(k, item);
    if id <= top {
      Distance(top, id);
    } else {
      Distance(id, top);
    }
    assert w.Covers(k) <==> id <= top;
    forall i | newTop - 32 < i <= newTop && i != id
      ensures Wire(i) in after.entries <==> InUse(w, top, i)
      ensures Wire(i) in after.entries ==> after.entries[Wire(i)] == w.entries[Wire(i)]
    {
      WireApart(i, id);
      Distance(newTop, i);
      if i > top {
        Distance(i, top);
      }
    }
  }

  // ---------------------------------------------------------------- sending

  /** The slot the next packet goes to belongs to the id 32 before it. */
  lemma OldestKey(sent: Window<Pending>, top: int)
    requires IsRing(sent) && sent.newest == Wire(top)
    ensures sent.PushWillOverride() <==> InUse(sent, top, top - 31)
    ensures sent.Next() == Wire(top + 1)
  {
    NextKey(top);
    Distance(top + 1, top - 31);
    assert WrappingSub(sent.Next(), 32) == Wire(top - 31);
  }

  /** A new packet goes into a free slot of the send ring and to the end of the log. */
  lemma PushKeeps(sent: Window<Pending>, log: seq<Copy>, accepted: set<int>, isOrdered: bool, pending: Pending, c: Copy)
    requires !sent.PushWillOverride()
    requires LogInv(log, isOrdered) && HoldsLog(sent, log) && NothingLost(sent, log, accepted)
    requires c.id == |log| && c.packet == pending.packet
    requires c.packet.ack.sequenceId == sent.Next() && c.packet.reliable && c.packet.ordered == isOrdered
    ensures LogInv(log + [c], isOrdered)
    ensures HoldsLog(sent.Push(pending), log + [c])
    ensures NothingLost(sent.Push(pending), log + [c], accepted)
  {
    var top, next := |log| - 1, sent.Push(pending);
    OldestKey(sent, top);
    InsertById(sent, top, top + 1, pending);
    forall id | 0 <= id < |log| && id !in accepted
      ensures InUse(next, top + 1, id)
    {
      assert InUse(sent, top, id) && id != top - 31;
    }
  }

  lemma LogContentsAppend(log: seq<Copy>, c: Copy)
    ensures LogContents(log + [c]) == LogContents(log) + c.packet.messages
  {
    assert (log + [c])[..|log|] == log;
  }

  /** The copies `made` stand for `packets`, numbered from `first` on. */
  ghost predicate Numbered(made: seq<Copy>, packets: seq<Packet>, first: int) {
    && |made| == |packets|
    && forall i :: 0 <= i < |made| ==> made[i].id == first + i && made[i].packet == packets[i]
  }

  lemma NumberedTail(made: seq<Copy>, packet: Packet, packets: seq<Packet>, first: int)
    requires Numbered(made, [packet] + packets, first)
    ensures made[0].id == first && made[0].packet == packet
    ensures Numbered(made[1..], packets, first + 1)
  {
    forall i | 0 <= i < |packets|
      ensures made[1..][i].id == first + 1 + i && made[1..][i].packet == packets[i]
    {
      assert made[1..][i] == made[i + 1];
    }
  }

  lemma MoveHead<T>(left: seq<T>, right: seq<T>)
    requires right != []
    ensures (left + [right[0]]) + right[1..] == left + right
  {
  }

  lemma WrittenStep(log: seq<Copy>, c: Copy, queue: seq<Msg>, n: nat, written: seq<Msg>)
    requires n <= |queue| && c.packet.messages == queue[..n]
    requires LogContents(log) + queue == written
    ensures LogContents(log + [c]) + queue[n..] == written
  {
    LogContentsAppend(log, c);
    assert queue == queue[..n] + queue[n..];
  }

  /** The whole flush loop: every packet it makes goes to the end of the log. */
  lemma {:induction false} FlushKeeps(
      sent: Window<Pending>, log: seq<Copy>, accepted: set<int>, written: seq<Msg>,
      reliable: Window<()>, ordered: Window<Packet>, queue: seq<Msg>, isOrdered: bool, retries: usize,
      made: seq<Copy>)
    requires IsRing(reliable) && IsRing(ordered)
    requires LogInv(log, isOrdered) && HoldsLog(sent, log) && NothingLost(sent, log, accepted)
    requires LogContents(log) + queue == written
    requires Numbered(made, FlushReliable(sent, reliable, ordered, queue, isOrdered, retries).made, |log|)
    ensures var r := FlushReliable(sent, reliable, ordered, queue, isOrdered, retries);
      && LogInv(log + made, isOrdered)
      && HoldsLog(r.window, log + made)
      && NothingLost(r.window, log + made, accepted)
      && LogContents(log + made) + r.queue == written
    decreases |made|
  {
    if sent.PushWillOverride() || queue == [] {
      assert log + made == log;
    } else {
      var n, pending := FirstFlush(sent, reliable, ordered, queue, isOrdered, retries);
      var rest := FlushReliable(sent.Push(pending), reliable, ordered, queue[n..], isOrdered, retries);
      NumberedTail(made, pending.packet, rest.made, |log|);
      var c := made[0];
      PushKeeps(sent, log, accepted, isOrdered, pending, c);
      WrittenStep(log, c, queue, n, written);
      FlushKeeps(sent.Push(pending), log + [c], accepted, written, reliable, ordered, queue[n..], isOrdered, retries, made[1..]);
      MoveHead(log, made);
    }
  }

  /** Sending again only changes the retries, as long as no packet runs out of them. */
  lemma ResendKeeps(sent: Window<Pending>, log: seq<Copy>, accepted: set<int>, due: set<u16>)
    requires HoldsLog(sent, log) && NothingLost(sent, log, accepted)
    requires !LastRetry(sent, due)
    ensures HoldsLog(sent.Retain(ResendIfNeeded(due)), log)
    ensures NothingLost(sent.Retain(ResendIfNeeded(due)), log, accepted)
  {
    var after := sent.Retain(ResendIfNeeded(due));
    forall k | k in sent.entries
      ensures k in after.entries && after.entries[k].packet == sent.entries[k].packet
    {
      assert !(k in due && sent.entries[k].remainingRetries == 1);
    }
  }

  // ---------------------------------------------------------------- acknowledging

  /**
   * An acknowledgement that is not 65505 or more packets late names the same ids for the sender as it
   * did for its maker, so it only removes packets that have been accepted.
   */
  lemma AckKeeps(sent: Window<Pending>, log: seq<Copy>, accepted: set<int>, top: int, newest: u16, bits: nat, r: int)
    requires HoldsLog(sent, log) && NothingLost(sent, log, accepted)
    requires AckSound(newest, bits, r, accepted, top)
    requires top < |log| && |log| - 1 - r <= 65504
    ensures HoldsLog(Packets.Acknowledge(sent, newest, bits), log)
    ensures NothingLost(Packets.Acknowledge(sent, newest, bits), log, accepted)
  {
    var after := Packets.Acknowledge(sent, newest, bits);
    forall id | InUse(sent, |log| - 1, id) && Acked(newest, bits, Wire(id))
      ensures id in accepted
    {
      AckNames(r, |log| - 1, id);
    }
    forall id | 0 <= id < |log| && id !in accepted
      ensures InUse(after, |log| - 1, id)
    {
      assert InUse(sent, |log| - 1, id);
    }
  }

  /** If the wire form of a recent id is within 32 below that of `r`, so is the id itself. */
  lemma AckNames(r: int, newestSent: int, id: int)
    requires newestSent - 32 < id <= newestSent
    requires -1 <= r <= newestSent && newestSent - r <= 65504
    requires WrappingSub(Wire(r), Wire(id)) < 32
    ensures r - 32 < id <= r
  {
    if id <= r {
      Distance(r, id);
    } else {
      Distance(id, r);
      WireApart(id, r);
    }
  }

  /** A fresh acknowledgement is sound, and names every id the receive ring holds. */
  lemma FreshAck<T>(received: Window<T>, accepted: set<int>, top: int)
    requires ReceiveInv(received, accepted, top)
    ensures AckSound(received.newest, AckBits(received), top, accepted, top)
    ensures forall id :: InUse(received, top, id) ==> Acked(received.newest, AckBits(received), Wire(id))
  {
    forall id | top - 32 < id <= top
      ensures Acked(received.newest, AckBits(received), Wire(id)) <==> Wire(id) in received.entries
    {
      Distance(top, id);
      AckBitsAreKeys(received, top - id);
    }
  }

  // ---------------------------------------------------------------- receiving

  /**
   * The too-old test: for an id that is new, or old but classifiable, it says "too old" exactly for
   * the ids before the last 32.
   */
  lemma TooOldIsOld(top: int, id: int)
    requires -1 <= top && id <= top + 32
    requires Classifiable(top, id)
    ensures WrappingGt(WrappingSub(Wire(top), 31), Wire(id), 64) <==> id <= top - 32
  {
    var x: int, y: int := Wire(top - 31), Wire(id);
    Distance(top, top - 31);
    assert WrappingSub(Wire(top), 31) == x;
    if id >= top - 95 {
      GtComparesIds(top - 31, id, 64);
    } else {
      assert top - 31 == 65536 * ((top - 31) / 65536) + x && id == 65536 * (id / 65536) + y;
    }
  }

  /**
   * What a packet of the stream is taken for. A duplicate or an old one has been accepted before;
   * anything else has not, and its id is close enough to go into the ring.
   */
  lemma Classified<T>(received: Window<T>, accepted: set<int>, top: int, sent: Window<Pending>, log: seq<Copy>, id: int)
    requires ReceiveInv(received, accepted, top)
    requires NothingLost(sent, log, accepted) && top < |log|
    requires 0 <= id < |log| && Classifiable(top, id)
    ensures top - 31 <= id ==> (Wire(id) in received.entries <==> id in accepted)
    ensures id in accepted <==>
      received.Get(Wire(id)).Some? || WrappingGt(WrappingSub(received.newest, 31), Wire(id), 64)
    ensures id !in accepted ==> top - 32 < id <= top + 32
  {
    WindowIsTight(sent, log, accepted, top);
    TooOldIsOld(top, id);
    if top < id {
      if Wire(id) in received.entries {
        var other := KeyHasId(received, top, Wire(id));
        WireApart(id, other);
      }
    }
  }

  /** Accepting a new id keeps the receive ring in step with the set of accepted ids. */
  lemma AcceptKeeps<T>(received: Window<T>, accepted: set<int>, top: int, id: int, item: T)
    requires ReceiveInv(received, accepted, top)
    requires 0 <= id && top - 32 < id <= top + 32
    ensures ReceiveInv(received.Insert(Wire(id), item), accepted + {id}, Max(top, id))
  {
    InsertById(received, top, id, item);
  }
}

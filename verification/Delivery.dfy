/** What has been handed to the user, in terms of the ids accepted. */
module Delivery {
  import opened WrappingIds
  import opened Windows
  import opened Packets
  import opened Endpoints
  import opened Draining
  import opened Network
  import opened Streams

  /** The messages of the accepted ones of the first `n` packets, with their multiplicity. */
  function SumAccepted(log: seq<Copy>, accepted: set<int>, n: nat): multiset<Msg>
    requires n <= |log|
  {
    if n == 0 then multiset{}
    else SumAccepted(log, accepted, n - 1)
         + (if n - 1 in accepted then multiset(log[n - 1].packet.messages) else multiset{})
  }

  lemma {:induction false} SumGrows(log: seq<Copy>, more: seq<Copy>, accepted: set<int>, n: nat)
    requires n <= |log|
    ensures SumAccepted(log + more, accepted, n) == SumAccepted(log, accepted, n)
  {
    if n > 0 {
      SumGrows(log, more, accepted, n - 1);
    }
  }

  lemma {:induction false} SumBeyond(log: seq<Copy>, accepted: set<int>, m: nat, n: nat)
    requires m <= n <= |log|
    requires forall id :: id in accepted ==> id < m
    ensures SumAccepted(log, accepted, n) == SumAccepted(log, accepted, m)
  {
    if m < n {
      SumBeyond(log, accepted, m, n - 1);
    }
  }

  /** New packets count for nothing until they are accepted. */
  lemma SumOfLongerLog(log: seq<Copy>, more: seq<Copy>, accepted: set<int>)
    requires forall id :: id in accepted ==> id < |log|
    ensures SumAccepted(log + more, accepted, |log + more|) == SumAccepted(log, accepted, |log|)
  {
    SumBeyond(log + more, accepted, |log|, |log + more|);
    SumGrows(log, more, accepted, |log|);
  }

  /** A newly accepted id adds exactly the messages of its packet. */
  lemma {:induction false} SumAccepts(log: seq<Copy>, accepted: set<int>, id: int, n: nat)
    requires n <= |log| && 0 <= id < |log| && id !in accepted
    ensures SumAccepted(log, accepted + {id}, n)
         == SumAccepted(log, accepted, n) + (if id < n then multiset(log[id].packet.messages) else multiset{})
  {
    if n > 0 {
      SumAccepts(log, accepted, id, n - 1);
    }
  }

  /** If every packet has been accepted, everything has been counted once. */
  lemma {:induction false} SumOfAll(log: seq<Copy>, accepted: set<int>, n: nat)
    requires n <= |log|
    requires forall id :: 0 <= id < n ==> id in accepted
    ensures SumAccepted(log, accepted, n) == multiset(LogContents(log[..n]))
  {
    if n > 0 {
      SumOfAll(log, accepted, n - 1);
      assert log[..n][..n - 1] == log[..n - 1];
    }
  }

  /** The ordered stream: everything before the read head has been released, and nothing else. */
  ghost predicate ReleasedInv(received: Window<Packet>, head: u16, accepted: set<int>, top: int, h: int,
                              log: seq<Copy>, released: seq<Msg>) {
    && 0 <= h <= top + 1 && top < |log|
    && head == Wire(h)
    && (forall id :: 0 <= id < h ==> id in accepted)
    && h !in accepted
    && released == LogContents(log[..h])
    && (forall id :: InUse(received, top, id) && h <= id ==>
          received.entries[Wire(id)].messages == log[id].packet.messages)
  }

  lemma KeyOf(top: int, id: int)
    requires 0 <= top - id < 65536
    ensures WrappingSub(Wire(top), top - id) == Wire(id)
  {
  }

  /** The run of filled slots at the head ends at the first id that has not been accepted. */
  lemma {:induction false} RunIsFirstMissing(w: Window<Packet>, accepted: set<int>, top: int, h: int)
    requires ReceiveInv(w, accepted, top)
    requires top - 31 <= h <= top + 1
    ensures RunLength(w, top + 1 - h) == FirstMissing(accepted, h, top) - h
    decreases top + 1 - h
  {
    if h <= top {
      KeyOf(top, h);
      assert InUse(w, top, h) <==> Wire(h) in w.entries;
      if h in accepted {
        RunIsFirstMissing(w, accepted, top, h + 1);
      }
    }
  }

  /** The messages of the run continue the messages released so far. */
  lemma {:induction false} RunContinues(w: Window<Packet>, log: seq<Copy>, top: int, h: int, n: nat)
    requires w.newest == Wire(top)
    requires 0 <= h && top - 31 <= h && h + n <= top + 1 <= |log|
    requires forall i: int :: top + 1 - h - n <= i < top + 1 - h ==> WrappingSub(w.newest, i) in w.entries
    requires forall id :: InUse(w, top, id) && h <= id ==> w.entries[Wire(id)].messages == log[id].packet.messages
    ensures LogContents(log[..h]) + RunMessages(w, top + 1 - h, n) == LogContents(log[..h + n])
    decreases n
  {
    if n > 0 {
      KeyOf(top, h);
      assert WrappingSub(w.newest, top - h) in w.entries;
      assert InUse(w, top, h);
      assert log[..h + 1][..h] == log[..h];
      RunContinues(w, log, top, h + 1, n - 1);
    }
  }

  lemma HeadOf(w: Window<Packet>, top: int, h: int)
    requires w.newest == Wire(top) && top - 31 <= h <= top + 1
    ensures Head(w, top + 1 - h) == Wire(h)
  {
    NextKey(top);
    KeyOf(top + 1, h);
  }

  /** Emptying released packets changes neither which ids are held nor any later packet. */
  lemma EmptiedKeeps(w: Window<Packet>, accepted: set<int>, top: int, h: int, n: nat)
    requires ReceiveInv(w, accepted, top)
    requires top - 31 <= h && h + n <= top + 1
    ensures var after := Emptied(w, top + 1 - h, n);
      && ReceiveInv(after, accepted, top)
      && (forall id :: InUse(after, top, id) && h + n <= id ==> InUse(w, top, id) && after.entries[Wire(id)] == w.entries[Wire(id)])
  {
    var after := Emptied(w, top + 1 - h, n);
    assert forall id :: InUse(after, top, id) <==> InUse(w, top, id);
    forall id | InUse(after, top, id) && h + n <= id
      ensures after.entries[Wire(id)] == w.entries[Wire(id)]
    {
      Distance(top, id);
    }
  }

  lemma NewestIs(w: Window<Packet>, accepted: set<int>, top: int)
    requires ReceiveInv(w, accepted, top)
    ensures w.newest == Wire(top)
  {
  }

  lemma ReleaseKeeps(w: Window<Packet>, accepted: set<int>, top: int, h: int, log: seq<Copy>, released: seq<Msg>)
    requires ReceiveInv(w, accepted, top) && top < |log|
    requires 0 <= h && top - 31 <= h <= top + 1
    requires forall id :: 0 <= id < h ==> id in accepted
    requires released == LogContents(log[..h])
    requires forall id :: InUse(w, top, id) && h <= id ==> w.entries[Wire(id)].messages == log[id].packet.messages
    ensures var d, next := ReleaseRun(w, top + 1 - h), FirstMissing(accepted, h, top);
      && ReceiveInv(d.window, accepted, top)
      && ReleasedInv(d.window, d.head, accepted, top, next, log, released + d.messages)
  {
    hide ReceiveInv, FirstMissing, RunLength, RunMessages, Emptied, LogContents, Head;
    NewestIs(w, accepted, top);
    var n, next := RunLength(w, top + 1 - h), FirstMissing(accepted, h, top);
    assert next == h + n by { RunIsFirstMissing(w, accepted, top, h); }
    var d := ReleaseRun(w, top + 1 - h);
    assert released + d.messages == LogContents(log[..next]) by { RunContinues(w, log, top, h, n); }
    assert d.head == Wire(next) by {
      HeadOf(w, top, next);
      assert d.head == Head(w, top + 1 - next);
    }
    EmptiedKeeps(w, accepted, top, h, n);
  }

  /**
   * One accepted ordered packet: the drain loop releases what has become contiguous, and the
   * invariant holds again with the head at the first missing id.
   */
  lemma DrainKeeps(w: Window<Packet>, head: u16, accepted: set<int>, top: int, h: int,
                   log: seq<Copy>, released: seq<Msg>)
    requires ReceiveInv(w, accepted, top) && top < |log|
    requires 0 <= h && top - 31 <= h <= top + 1 && head == Wire(h)
    requires forall id :: 0 <= id < h ==> id in accepted
    requires released == LogContents(log[..h])
    requires forall id :: InUse(w, top, id) && h <= id ==> w.entries[Wire(id)].messages == log[id].packet.messages
    ensures forall k :: k in w.KeysFrom(32) ==> k in w.entries
    ensures var d, next := Drain(w, w.KeysFrom(32), head), FirstMissing(accepted, h, top);
      && ReceiveInv(d.window, accepted, top)
      && ReleasedInv(d.window, d.head, accepted, top, next, log, released + d.messages)
  {
    HeadOf(w, top, h);
    DrainReleasesRun(w, top + 1 - h);
    ReleaseKeeps(w, accepted, top, h, log, released);
  }
}

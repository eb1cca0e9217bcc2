/** The read loop releases exactly the contiguous run of packets at the read head. */
module Draining {
  import opened WrappingIds
  import opened Windows
  import opened Packets
  import opened Endpoints

  /** The read head that has `ahead` ids from itself up to the newest one. */
  function Head(w: Window<Packet>, ahead: u16): u16 {
    WrappingSub(w.Next(), ahead)
  }

  /** The length of the contiguous run of ids in use that starts at the head. */
  function RunLength(w: Window<Packet>, ahead: u16): (n: nat)
    ensures n <= ahead
    ensures forall i: int :: ahead - n <= i < ahead ==> WrappingSub(w.newest, i) in w.entries
    ensures n < ahead ==> WrappingSub(w.newest, ahead - n - 1) !in w.entries
  {
    if ahead > 0 && WrappingSub(w.newest, ahead - 1) in w.entries then 1 + RunLength(w, ahead - 1) else 0
  }

  /** The messages of the `n` packets from the head on, in order. */
  function RunMessages(w: Window<Packet>, ahead: u16, n: nat): seq<Msg>
    requires n <= ahead
    requires forall i: int :: ahead - n <= i < ahead ==> WrappingSub(w.newest, i) in w.entries
  {
    if n == 0 then []
    else w.entries[WrappingSub(w.newest, ahead - 1)].messages + RunMessages(w, ahead - 1, n - 1)
  }

  /** The ring after the `n` packets from the head on have been emptied. */
  function Emptied(w: Window<Packet>, ahead: nat, n: nat): Window<Packet> {
    w.(entries := map k | k in w.entries ::
      if ahead - n <= WrappingSub(w.newest, k) < ahead then w.entries[k].(messages := []) else w.entries[k])
  }

  /** What the loop should do: release the whole run, in order, and leave the head behind it. */
  function ReleaseRun(w: Window<Packet>, ahead: u16): Drained {
    var n := RunLength(w, ahead);
    Drained(Emptied(w, ahead, n), Head(w, ahead - n), RunMessages(w, ahead, n))
  }

  lemma KeysInUse(w: Window<Packet>, c: nat)
    requires c <= 32
    ensures forall k :: k in w.KeysFrom(c) ==> k in w.entries
  {
    w.KeysAreChronological(c);
  }

  /**
   * For any head among the 32 ids of the ring or just after them, the loop with its early exit
   * releases exactly the maximal contiguous run from the head, each packet once and in order.
   */
  lemma DrainReleasesRun(w: Window<Packet>, ahead: u16)
    requires ahead <= 32
    ensures forall k :: k in w.KeysFrom(32) ==> k in w.entries
    ensures Drain(w, w.KeysFrom(32), Head(w, ahead)) == ReleaseRun(w, ahead)
  {
    KeysInUse(w, 32);
    DrainFrom(w, 32, ahead);
  }

  lemma {:induction false} DrainFrom(w: Window<Packet>, c: nat, ahead: u16)
    requires ahead <= c <= 32
    requires forall k :: k in w.KeysFrom(c) ==> k in w.entries
    ensures Drain(w, w.KeysFrom(c), Head(w, ahead)) == ReleaseRun(w, ahead)
    decreases c
  {
    hide Drain, ReleaseRun, Head;
    if c == 0 {
      DrainNothing(w);
    } else {
      KeysInUse(w, c - 1);
      if c > ahead {
        DrainSkips(w, c, ahead);
        DrainFrom(w, c - 1, ahead);
      } else if WrappingSub(w.newest, c - 1) !in w.entries {
        DrainMissing(w, c);
      } else {
        var next := DrainsHead(w, c);
        DrainFrom(next, c - 1, c - 1);
        RunAfterRelease(w, next, c);
      }
    }
  }

  lemma DrainNothing(w: Window<Packet>)
    ensures Drain(w, w.KeysFrom(0), Head(w, 0)) == ReleaseRun(w, 0)
  {
    assert Emptied(w, 0, 0) == w;
  }

  /** Nothing is released if the id at the head is not in use. */
  lemma DrainMissing(w: Window<Packet>, ahead: u16)
    requires 0 < ahead <= 32 && WrappingSub(w.newest, ahead - 1) !in w.entries
    requires forall k :: k in w.KeysFrom(ahead) ==> k in w.entries
    requires forall k :: k in w.KeysFrom(ahead - 1) ==> k in w.entries
    ensures Drain(w, w.KeysFrom(ahead), Head(w, ahead)) == ReleaseRun(w, ahead)
  {
    w.KeysStep(ahead);
    DrainPast(w, ahead - 1, ahead);
    assert Emptied(w, ahead, 0) == w;
  }

  /** An id before the head is passed over. */
  lemma DrainSkips(w: Window<Packet>, c: nat, ahead: u16)
    requires ahead < c <= 32
    requires forall k :: k in w.KeysFrom(c) ==> k in w.entries
    requires forall k :: k in w.KeysFrom(c - 1) ==> k in w.entries
    ensures Drain(w, w.KeysFrom(c), Head(w, ahead)) == Drain(w, w.KeysFrom(c - 1), Head(w, ahead))
  {
    w.KeysStep(c);
  }

  /** The id at the head is released. */
  lemma DrainsHead(w: Window<Packet>, ahead: u16) returns (next: Window<Packet>)
    requires 0 < ahead <= 32 && WrappingSub(w.newest, ahead - 1) in w.entries
    requires forall k :: k in w.KeysFrom(ahead) ==> k in w.entries
    ensures var k := WrappingSub(w.newest, ahead - 1); next == w.Update(k, w.entries[k].(messages := []))
    ensures forall k :: k in next.KeysFrom(ahead - 1) ==> k in next.entries
    ensures var rest := Drain(next, next.KeysFrom(ahead - 1), Head(next, ahead - 1));
      Drain(w, w.KeysFrom(ahead), Head(w, ahead))
      == rest.(messages := w.entries[WrappingSub(w.newest, ahead - 1)].messages + rest.messages)
  {
    var k := WrappingSub(w.newest, ahead - 1);
    next := w.Update(k, w.entries[k].(messages := []));
    w.SameKeys(next, ahead - 1);
    w.KeysStep(ahead);
    KeysInUse(next, ahead - 1);
  }

  lemma {:induction false} DrainPast(w: Window<Packet>, c: nat, ahead: u16)
    requires c < ahead <= 32
    requires forall k :: k in w.KeysFrom(c) ==> k in w.entries
    ensures Drain(w, w.KeysFrom(c), Head(w, ahead)) == Drained(w, Head(w, ahead), [])
  {
    if c > 0 {
      KeysInUse(w, c - 1);
      w.KeysStep(c);
      DrainPast(w, c - 1, ahead);
    }
  }

  /** Emptying the packet at the head leaves the rest of the run as it was. */
  lemma RunAfterRelease(w: Window<Packet>, next: Window<Packet>, ahead: u16)
    requires 0 < ahead <= 32
    requires WrappingSub(w.newest, ahead - 1) in w.entries
    requires var k := WrappingSub(w.newest, ahead - 1); next == w.Update(k, w.entries[k].(messages := []))
    ensures ReleaseRun(w, ahead) == ReleaseRun(next, ahead - 1).(
              messages := w.entries[WrappingSub(w.newest, ahead - 1)].messages + ReleaseRun(next, ahead - 1).messages)
  {
    hide Emptied;
    var k := WrappingSub(w.newest, ahead - 1);
    assert k in w.entries;
    RestIsSame(w, next, ahead);
    var n := RunLength(next, ahead - 1);
    assert RunLength(w, ahead) == 1 + n;
    EmptiedAfterRelease(w, next, ahead, 1 + n);
    assert RunMessages(w, ahead, 1 + n) == w.entries[k].messages + RunMessages(w, ahead - 1, n);
  }

  lemma RestIsSame(w: Window<Packet>, next: Window<Packet>, ahead: u16)
    requires 0 < ahead <= 32
    requires WrappingSub(w.newest, ahead - 1) in w.entries
    requires var k := WrappingSub(w.newest, ahead - 1); next == w.Update(k, w.entries[k].(messages := []))
    ensures next.newest == w.newest
    ensures RunLength(next, ahead - 1) == RunLength(w, ahead - 1)
    ensures var n := RunLength(w, ahead - 1); RunMessages(next, ahead - 1, n) == RunMessages(w, ahead - 1, n)
  {
    hide RunLength, RunMessages;
    SameRun(w, next, ahead - 1);
  }

  lemma EmptiedAfterRelease(w: Window<Packet>, next: Window<Packet>, ahead: u16, n: nat)
    requires 0 < n <= ahead <= 32
    requires WrappingSub(w.newest, ahead - 1) in w.entries
    requires var k := WrappingSub(w.newest, ahead - 1); next == w.Update(k, w.entries[k].(messages := []))
    ensures Emptied(w, ahead, n) == Emptied(next, ahead - 1, n - 1)
  {
    forall k | k in w.entries
      ensures Emptied(w, ahead, n).entries[k] == Emptied(next, ahead - 1, n - 1).entries[k]
    {
      if k != WrappingSub(w.newest, ahead - 1) {
        assert WrappingSub(w.newest, k) != ahead - 1;
      }
    }
  }

  lemma {:induction false} SameRun(w: Window<Packet>, next: Window<Packet>, ahead: u16)
    requires ahead < 32 && next.newest == w.newest && next.entries.Keys == w.entries.Keys
    requires forall i: int :: 0 <= i < ahead && WrappingSub(w.newest, i) in w.entries ==>
               next.entries[WrappingSub(w.newest, i)] == w.entries[WrappingSub(w.newest, i)]
    ensures RunLength(next, ahead) == RunLength(w, ahead)
    ensures RunMessages(next, ahead, RunLength(w, ahead)) == RunMessages(w, ahead, RunLength(w, ahead))
  {
    if ahead > 0 && WrappingSub(w.newest, ahead - 1) in w.entries {
      SameRun(w, next, ahead - 1);
    }
  }
}

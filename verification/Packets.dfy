/** Packets, their acknowledgement bitfields, and the size constants. */
module Packets {
  import opened WrappingIds
  import opened Windows

  type u8 = x: int | 0 <= x < 256

  /** A message, as the bytes of its `ByteRepr` form; its length is `byte_len`. */
  type Msg = seq<u8>

  /** The number of slots of every ring of a communicator. */
  const SLOTS: u16 := 32

  const MAX_PACKET_DATA_LEN: nat := 1024
  const PACKET_ACK_LEN: nat := 14
  const PACKET_HEADER_LEN: nat := 4 + PACKET_ACK_LEN + 2 + 4
  const MAX_PACKET_LEN: nat := PACKET_HEADER_LEN + MAX_PACKET_DATA_LEN

  datatype PacketAck = PacketAck(
    sequenceId: u16,
    reliableNewest: u16,
    reliableBits: nat,
    orderedNewest: u16,
    orderedBits: nat)

  datatype Packet = Packet(ack: PacketAck, reliable: bool, ordered: bool, messages: seq<Msg>)

  function Heartbeat(ack: PacketAck): Packet {
    Packet(ack, false, false, [])
  }

  /** `bits & 1 << i != 0`, on the binary digits of `bits`. */
  predicate Has(bits: nat, i: nat) {
    if i == 0 then bits % 2 == 1 else Has(bits / 2, i - 1)
  }

  /** `bits | 1 << i`, on the binary digits of `bits`. */
  function SetBit(bits: nat, i: nat): nat {
    if i == 0 then bits / 2 * 2 + 1 else SetBit(bits / 2, i - 1) * 2 + bits % 2
  }

  /** The bits after an iteration over `keys`: bit `i` is added for the id `i` before `newest`. */
  function KeyBits(bits: nat, newest: u16, keys: seq<u16>): nat
    decreases |keys|
  {
    if keys == [] then bits
    else KeyBits(SetBit(bits, WrappingSub(newest, keys[0])), newest, keys[1..])
  }

  /** The bitfield that acknowledges what a receive ring holds. */
  function AckBits<T>(received: Window<T>): nat {
    KeyBits(0, received.newest, received.KeysFrom(32))
  }

  function NewAck(sequenceId: u16, reliable: Window<()>, ordered: Window<Packet>): PacketAck {
    PacketAck(sequenceId, reliable.newest, AckBits(reliable), ordered.newest, AckBits(ordered))
  }

  /** The acknowledgement (`newest`, `bits`) names the id `k`. */
  predicate Acked(newest: u16, bits: nat, k: u16) {
    WrappingSub(newest, k) < 32 && Has(bits, WrappingSub(newest, k))
  }

  /** What is left of a send ring once an acknowledgement has been applied to it. */
  function Acknowledge<T>(sent: Window<T>, newest: u16, bits: nat): Window<T> {
    sent.(entries := map k | k in sent.entries && !Acked(newest, bits, k) :: sent.entries[k])
  }

  /** An acknowledgement of which only the first `i` bits have been looked at. */
  function AcknowledgeFirst<T>(sent: Window<T>, newest: u16, bits: nat, i: nat): Window<T> {
    sent.(entries := map k | k in sent.entries && !(WrappingSub(newest, k) < i && Acked(newest, bits, k)) :: sent.entries[k])
  }

  lemma AcknowledgeStep<T>(sent: Window<T>, newest: u16, bits: nat, i: nat)
    requires i < 32
    ensures AcknowledgeFirst(sent, newest, bits, i + 1)
         == if Has(bits, i) then AcknowledgeFirst(sent, newest, bits, i).Take(WrappingSub(newest, i))
            else AcknowledgeFirst(sent, newest, bits, i)
  {
    forall k: u16 ensures WrappingSub(newest, k) == i <==> k == WrappingSub(newest, i) {
    }
  }

  lemma AcknowledgeEnds<T>(sent: Window<T>, newest: u16, bits: nat)
    ensures AcknowledgeFirst(sent, newest, bits, 0) == sent
    ensures AcknowledgeFirst(sent, newest, bits, 32) == Acknowledge(sent, newest, bits)
  {
  }

  lemma {:induction false} HasSetBit(bits: nat, j: nat, i: nat)
    ensures Has(SetBit(bits, j), i) <==> j == i || Has(bits, i)
    decreases j
  {
    if j > 0 && i > 0 {
      HasSetBit(bits / 2, j - 1, i - 1);
    }
  }

  /** Setting a bit below `width` stays below `1 << width`. */
  lemma {:induction false} SetBitFits(bits: nat, j: nat, width: nat)
    requires j < width && bits < Power2(width)
    ensures SetBit(bits, j) < Power2(width)
    decreases j
  {
    var half := Power2(width - 1);
    assert Power2(width) == 2 * half;
    if j > 0 {
      hide Power2;
      assert bits / 2 < half;
      SetBitFits(bits / 2, j - 1, width - 1);
    }
  }

  function Power2(width: nat): nat {
    if width == 0 then 1 else 2 * Power2(width - 1)
  }

  lemma {:induction false} HasKeyBits(bits: nat, newest: u16, keys: seq<u16>, i: nat)
    requires i < 65536
    ensures Has(KeyBits(bits, newest, keys), i) <==> Has(bits, i) || WrappingSub(newest, i) in keys
    decreases |keys|
  {
    if keys != [] {
      var k, rest := keys[0], keys[1..];
      HasKeyBits(SetBit(bits, WrappingSub(newest, k)), newest, rest, i);
      HasSetBit(bits, WrappingSub(newest, k), i);
      assert keys == [k] + rest;
      assert WrappingSub(newest, k) == i <==> k == WrappingSub(newest, i);
    }
  }

  lemma {:induction false} KeyBitsFit(bits: nat, newest: u16, keys: seq<u16>)
    requires forall i :: 0 <= i < |keys| ==> WrappingSub(newest, keys[i]) < 32
    requires bits < Power2(32)
    ensures KeyBits(bits, newest, keys) < Power2(32)
    decreases |keys|
  {
    if keys != [] {
      SetBitFits(bits, WrappingSub(newest, keys[0]), 32);
      KeyBitsFit(SetBit(bits, WrappingSub(newest, keys[0])), newest, keys[1..]);
    }
  }

  lemma {:induction false} NoBits(i: nat)
    ensures !Has(0, i)
  {
    if i > 0 {
      NoBits(i - 1);
    }
  }

  /** All shifts are below 32: the bits of a fresh acknowledgement fit into the 32-bit field. */
  lemma AckBitsFit<T>(received: Window<T>)
    requires received.Valid() && received.n == SLOTS
    ensures AckBits(received) < 0x1_0000_0000
  {
    received.KeysAreChronological(32);
    var keys := received.KeysFrom(32);
    forall i | 0 <= i < |keys| ensures WrappingSub(received.newest, keys[i]) < 32 {
      assert keys[i] in keys;
    }
    assert Power2(8) == 0x100;
    assert Power2(16) == 0x1_0000;
    assert Power2(24) == 0x100_0000;
    assert Power2(32) == 0x1_0000_0000;
    KeyBitsFit(0, received.newest, keys);
  }

  /** Bit `i` of a fresh acknowledgement is set iff the id `i` before the newest is held. */
  lemma AckBitsAreKeys<T>(received: Window<T>, i: nat)
    requires received.Valid() && received.n == SLOTS && i < 32
    ensures Has(AckBits(received), i) <==> WrappingSub(received.newest, i) in received.entries
  {
    received.KeysAreChronological(32);
    NoBits(i);
    HasKeyBits(0, received.newest, received.KeysFrom(32), i);
  }

  /**
   * Building an acknowledgement from the peer's receive rings and applying it removes from the two
   * send rings exactly the ids each peer ring holds; neither half of the bits affects the other ring.
   */
  lemma AckRoundTrip<S>(sequenceId: u16, reliableSent: Window<S>, orderedSent: Window<S>,
                           reliableReceived: Window<()>, orderedReceived: Window<Packet>)
    requires reliableReceived.Valid() && reliableReceived.n == SLOTS
    requires orderedReceived.Valid() && orderedReceived.n == SLOTS
    ensures var ack := NewAck(sequenceId, reliableReceived, orderedReceived);
      && Acknowledge(reliableSent, ack.reliableNewest, ack.reliableBits).entries
         == reliableSent.entries - reliableReceived.entries.Keys
      && Acknowledge(orderedSent, ack.orderedNewest, ack.orderedBits).entries
         == orderedSent.entries - orderedReceived.entries.Keys
  {
    forall k: u16
      ensures Acked(reliableReceived.newest, AckBits(reliableReceived), k) <==> k in reliableReceived.entries
      ensures Acked(orderedReceived.newest, AckBits(orderedReceived), k) <==> k in orderedReceived.entries
    {
      if WrappingSub(reliableReceived.newest, k) < 32 {
        AckBitsAreKeys(reliableReceived, WrappingSub(reliableReceived.newest, k));
      }
      if WrappingSub(orderedReceived.newest, k) < 32 {
        AckBitsAreKeys(orderedReceived, WrappingSub(orderedReceived.newest, k));
      }
    }
  }
}

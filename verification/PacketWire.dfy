/** A packet of the protocol as a value of the byte representation, and the room it takes in the buffer. */
module PacketWire {
  import opened Options
  import opened WrappingIds
  import opened Windows
  import opened Packets
  import opened Packing
  import opened Flushing
  import opened Schemas
  import opened Encoding
  import opened Decoding
  import opened RoundTrip
  import opened Lengths

  const ACK_SCHEMA: Schema := Struct([Scalar(2), Scalar(2), Scalar(4), Scalar(2), Scalar(4)])

  function PacketSchema(message: Schema): Schema {
    Struct([ACK_SCHEMA, Bool, Bool, Vec(message)])
  }

  function AckValue(ack: PacketAck): Value {
    VStruct([VScalar(ack.sequenceId), VScalar(ack.reliableNewest), VScalar(ack.reliableBits),
             VScalar(ack.orderedNewest), VScalar(ack.orderedBits)])
  }

  function PacketValue(p: Packet, values: seq<Value>): Value {
    VStruct([AckValue(p.ack), VBool(p.reliable), VBool(p.ordered), VList(values)])
  }

  /** The messages of the packet are the byte representations of the values. */
  ghost predicate Carries(message: Schema, values: seq<Value>, messages: seq<Msg>) {
    && |values| == |messages| < U32_LIMIT
    && AllTyped(message, values)
    && forall i :: 0 <= i < |values| ==> messages[i] == Encode(message, values[i])
  }

  /** Both bit fields fit into 32 bits. */
  predicate BitsFit(ack: PacketAck) {
    ack.reliableBits < U32_LIMIT && ack.orderedBits < U32_LIMIT
  }

  lemma {:induction false} CarriedLength(message: Schema, values: seq<Value>, messages: seq<Msg>)
    requires WellFormed(message) && Carries(message, values, messages)
    ensures ByteLenAll(message, values) == DataLen(messages)
    decreases |values|
  {
    hide Encode, ByteLen, Typed, WellFormed;
    if values != [] {
      LengthIsExact(message, values[0]);
      CarriedLength(message, values[1..], messages[1..]);
    }
  }

  /** One more field in front of a list. */
  lemma ConsField(f: Schema, v: Value, fields: seq<Schema>, values: seq<Value>)
    ensures FixedLenAll([f] + fields) == FixedLen(f) + FixedLenAll(fields)
    ensures TailLenAll([f] + fields, [v] + values) == TailLen(f, v) + TailLenAll(fields, values)
    ensures MinLenAll([f] + fields) == MinLen(f) + MinLenAll(fields)
    ensures MaxLenAll([f] + fields) == MaxLen(f) + MaxLenAll(fields)
    ensures FieldsTyped([f] + fields, [v] + values) <==> Typed(f, v) && FieldsTyped(fields, values)
    ensures AllWellFormed(fields) && WellFormed(f) ==> AllWellFormed([f] + fields)
  {
    hide Typed, WellFormed, MinLen, MaxLen, TailLen, FixedLen;
    assert ([f] + fields)[1..] == fields && ([v] + values)[1..] == values;
  }

  /** The lengths of a list of fields, added up. */
  ghost predicate Summed(fields: seq<Schema>, values: seq<Value>, fixed: nat, tail: nat, min: nat, max: nat) {
    && AllWellFormed(fields) && FieldsTyped(fields, values)
    && FixedLenAll(fields) == fixed && TailLenAll(fields, values) == tail
    && MinLenAll(fields) == min && MaxLenAll(fields) == max
  }

  lemma ScalarField(width: nat, bits: nat, fields: seq<Schema>, values: seq<Value>, len: nat)
    requires width in {2, 4} && bits < Pow256(width) && Summed(fields, values, len, 0, len, len)
    ensures Summed([Scalar(width)] + fields, [VScalar(bits)] + values, width + len, 0, width + len, width + len)
  {
    hide FieldsTyped, AllWellFormed, FixedLenAll, TailLenAll, MinLenAll, MaxLenAll;
    hide Pow256, Typed, WellFormed, MinLen, MaxLen, FixedLen, TailLen;
    ScalarShape(width, bits);
    ScalarLens(width);
    ConsField(Scalar(width), VScalar(bits), fields, values);
  }

  lemma ScalarShape(width: nat, bits: nat)
    requires width in {2, 4} && bits < Pow256(width)
    ensures WellFormed(Scalar(width)) && Typed(Scalar(width), VScalar(bits)) && TailLen(Scalar(width), VScalar(bits)) == 0
  {
    hide Pow256, AllTyped, FieldsTyped, AllWellFormed;
  }

  lemma ScalarLens(width: nat)
    ensures FixedLen(Scalar(width)) == MinLen(Scalar(width)) == MaxLen(Scalar(width)) == width
  {
    hide MinLenAll, MaxLenAll, KnownMin, KnownMax, ConstMinMaxList;
  }

  lemma Widths()
    ensures Pow256(2) == 0x1_0000 && Pow256(4) == U32_LIMIT
  {
    assert Pow256(2) == 0x1_0000;
  }

  lemma AckWire(ack: PacketAck)
    requires BitsFit(ack)
    ensures WellFormed(ACK_SCHEMA) && Typed(ACK_SCHEMA, AckValue(ack))
    ensures ByteLen(ACK_SCHEMA, AckValue(ack)) == MinLen(ACK_SCHEMA) == MaxLen(ACK_SCHEMA) == PACKET_ACK_LEN
  {
    hide Summed, Pow256;
    Widths();
    assert Summed([], [], 0, 0, 0, 0) by { NoFields(); }
    ScalarField(4, ack.orderedBits, [], [], 0);
    var f1, v1 := [Scalar(4)] + [], [VScalar(ack.orderedBits)] + [];
    ScalarField(2, ack.orderedNewest, f1, v1, 4);
    var f2, v2 := [Scalar(2)] + f1, [VScalar(ack.orderedNewest)] + v1;
    ScalarField(4, ack.reliableBits, f2, v2, 6);
    var f3, v3 := [Scalar(4)] + f2, [VScalar(ack.reliableBits)] + v2;
    ScalarField(2, ack.reliableNewest, f3, v3, 10);
    var f4, v4 := [Scalar(2)] + f3, [VScalar(ack.reliableNewest)] + v3;
    ScalarField(2, ack.sequenceId, f4, v4, 12);
    assert [Scalar(2)] + f4 == ACK_SCHEMA.fields && [VScalar(ack.sequenceId)] + v4 == AckValue(ack).values;
    SummedStruct(ACK_SCHEMA.fields, AckValue(ack).values, 14, 0, 14, 14);
  }

  lemma NoFields()
    ensures Summed([], [], 0, 0, 0, 0)
  {
  }

  lemma SummedStruct(fields: seq<Schema>, values: seq<Value>, fixed: nat, tail: nat, min: nat, max: nat)
    requires Summed(fields, values, fixed, tail, min, max)
    ensures WellFormed(Struct(fields)) && Typed(Struct(fields), VStruct(values))
    ensures ByteLen(Struct(fields), VStruct(values)) == fixed + tail
    ensures MinLen(Struct(fields)) == min && MaxLen(Struct(fields)) == max
  {
  }

  /**
   * A packet takes its header, less the checksum, plus the lengths of its messages, and is read back
   * as the same packet from any buffer that starts with its bytes.
   */
  lemma PacketRoundTrip(message: Schema, p: Packet, values: seq<Value>, bytes: seq<u8>)
    requires WellFormed(message) && Carries(message, values, p.messages) && BitsFit(p.ack)
    requires At(bytes, 0, Encode(PacketSchema(message), PacketValue(p, values)))
    ensures ByteLen(PacketSchema(message), PacketValue(p, values)) == PACKET_HEADER_LEN - 4 + DataLen(p.messages)
    ensures Decode(PacketSchema(message), bytes) == Ok(PacketValue(p, values))
  {
    PacketTyped(message, p, values);
    DecodeRoundTrip(PacketSchema(message), PacketValue(p, values), bytes);
  }

  lemma PacketTyped(message: Schema, p: Packet, values: seq<Value>)
    requires WellFormed(message) && Carries(message, values, p.messages) && BitsFit(p.ack)
    ensures WellFormed(PacketSchema(message)) && Typed(PacketSchema(message), PacketValue(p, values))
    ensures ByteLen(PacketSchema(message), PacketValue(p, values)) == PACKET_HEADER_LEN - 4 + DataLen(p.messages)
    ensures MinLen(PacketSchema(message)) == PACKET_HEADER_LEN - 4 == 20
    ensures MaxLen(PacketSchema(message)) == PACKET_HEADER_LEN - 4 + MAX_ITEMS * MaxLen(message)
  {
    hide WellFormed, MinLen, MaxLen, AllTyped, ByteLenAll, DataLen;
    AckWire(p.ack);
    CarriedLength(message, values, p.messages);
    FourFields(message, AckValue(p.ack), VBool(p.reliable), VBool(p.ordered), VList(values));
  }

  lemma FourFields(message: Schema, a: Value, b: Value, c: Value, d: Value)
    requires WellFormed(message) && WellFormed(ACK_SCHEMA)
    requires Typed(ACK_SCHEMA, a) && Typed(Bool, b) && Typed(Bool, c) && Typed(Vec(message), d)
    ensures WellFormed(PacketSchema(message)) && Typed(PacketSchema(message), VStruct([a, b, c, d]))
    ensures ByteLen(PacketSchema(message), VStruct([a, b, c, d])) == ByteLen(ACK_SCHEMA, a) + 6 + TailLen(Vec(message), d)
    ensures MinLen(PacketSchema(message)) == MinLen(ACK_SCHEMA) + 6
    ensures MaxLen(PacketSchema(message)) == MaxLen(ACK_SCHEMA) + 6 + MAX_ITEMS * MaxLen(message)
  {
    hide FieldsTyped, AllWellFormed, FixedLenAll, TailLenAll, MinLenAll, MaxLenAll, AllTyped;
    assert Summed([], [], 0, 0, 0, 0) by { NoFields(); }
    ConsField(Vec(message), d, [], []);
    var f1, v1 := [Vec(message)] + [], [d] + [];
    ConsField(Bool, c, f1, v1);
    var f2, v2 := [Bool] + f1, [c] + v1;
    ConsField(Bool, b, f2, v2);
    var f3, v3 := [Bool] + f2, [b] + v2;
    ConsField(ACK_SCHEMA, a, f3, v3);
    var f4, v4 := [ACK_SCHEMA] + f3, [a] + v3;
    assert f4 == [ACK_SCHEMA, Bool, Bool, Vec(message)] && v4 == [a, b, c, d];
    SummedStruct(f4, v4, FixedLenAll(f4), TailLenAll(f4, v4), MinLenAll(f4), MaxLenAll(f4));
  }

  /** Every packet made by a flush, with its checksum, fits into the buffer of the socket. */
  lemma FlushedPacketFits(message: Schema, id: u16, reliable: Window<()>, ordered: Window<Packet>, isOrdered: bool,
                          made: seq<Packet>, i: nat, values: seq<Value>)
    requires IsRing(reliable) && IsRing(ordered)
    requires MadeFrom(id, reliable, ordered, isOrdered, made) && i < |made|
    requires WellFormed(message) && Carries(message, values, made[i].messages)
    ensures 4 + |Encode(PacketSchema(message), PacketValue(made[i], values))| <= MAX_PACKET_LEN == 1048
  {
    AckBitsFit(reliable);
    AckBitsFit(ordered);
    PacketTyped(message, made[i], values);
    LengthIsExact(PacketSchema(message), PacketValue(made[i], values));
  }

  // ---------------------------------------------------------------- the bytes of a packet

  function Flag(b: bool): seq<u8> {
    if b then [1] else [0]
  }

  /** The messages one after the other. */
  function Joined(messages: seq<Msg>): seq<u8> {
    if messages == [] then [] else messages[0] + Joined(messages[1..])
  }

  lemma {:induction false} CarriedBytes(message: Schema, values: seq<Value>, messages: seq<Msg>)
    requires Carries(message, values, messages)
    ensures EncodeAll(message, values) == Joined(messages)
    decreases |values|
  {
    hide Encode, Typed;
    if values != [] {
      CarriedBytes(message, values[1..], messages[1..]);
    }
  }

  /** The front part and the part behind of one more field. */
  lemma ConsBytes(f: Schema, v: Value, fields: seq<Schema>, values: seq<Value>)
    ensures FixedAll([f] + fields, [v] + values) == Fixed(f, v) + FixedAll(fields, values)
    ensures TailAll([f] + fields, [v] + values) == Tail(f, v) + TailAll(fields, values)
  {
    hide Fixed, Tail;
    assert ([f] + fields)[1..] == fields && ([v] + values)[1..] == values;
  }

  /** Front and back parts of a list of fields. */
  ghost predicate Regions(fields: seq<Schema>, values: seq<Value>, front: seq<u8>, back: seq<u8>) {
    FixedAll(fields, values) == front && TailAll(fields, values) == back
  }

  lemma ScalarBytes(width: nat, bits: nat, fields: seq<Schema>, values: seq<Value>, front: seq<u8>)
    requires Regions(fields, values, front, [])
    ensures Regions([Scalar(width)] + fields, [VScalar(bits)] + values, Le(width, bits) + front, [])
  {
    hide Le, FixedAll, TailAll;
    ConsBytes(Scalar(width), VScalar(bits), fields, values);
  }

  lemma NoRegions()
    ensures Regions([], [], [], [])
  {
  }

  /** The 14 bytes of an acknowledgement. */
  function AckBytes(ack: PacketAck): seq<u8> {
    Le(2, ack.sequenceId) + (Le(2, ack.reliableNewest) + (Le(4, ack.reliableBits) + (Le(2, ack.orderedNewest) + (Le(4, ack.orderedBits) + []))))
  }

  lemma AckRegions(ack: PacketAck)
    ensures Regions(ACK_SCHEMA.fields, AckValue(ack).values, AckBytes(ack), [])
  {
    hide Regions, Le;
    NoRegions();
    ScalarBytes(4, ack.orderedBits, [], [], []);
    var f1, v1, b1 := [Scalar(4)] + [], [VScalar(ack.orderedBits)] + [], Le(4, ack.orderedBits) + [];
    ScalarBytes(2, ack.orderedNewest, f1, v1, b1);
    var f2, v2, b2 := [Scalar(2)] + f1, [VScalar(ack.orderedNewest)] + v1, Le(2, ack.orderedNewest) + b1;
    ScalarBytes(4, ack.reliableBits, f2, v2, b2);
    var f3, v3, b3 := [Scalar(4)] + f2, [VScalar(ack.reliableBits)] + v2, Le(4, ack.reliableBits) + b2;
    ScalarBytes(2, ack.reliableNewest, f3, v3, b3);
    var f4, v4, b4 := [Scalar(2)] + f3, [VScalar(ack.reliableNewest)] + v3, Le(2, ack.reliableNewest) + b3;
    ScalarBytes(2, ack.sequenceId, f4, v4, b4);
    assert [Scalar(2)] + f4 == ACK_SCHEMA.fields && [VScalar(ack.sequenceId)] + v4 == AckValue(ack).values;
  }

  lemma StructBytes(fields: seq<Schema>, values: seq<Value>, front: seq<u8>, back: seq<u8>)
    requires Regions(fields, values, front, back)
    ensures Fixed(Struct(fields), VStruct(values)) == [] && Tail(Struct(fields), VStruct(values)) == front + back
    ensures Encode(Struct(fields), VStruct(values)) == front + back
  {
    hide FixedAll, TailAll;
    assert [] + (front + back) == front + back;
  }

  /**
   * The bytes of a packet: the two flags and the number of messages are hoisted in front of the
   * acknowledgement, whose numbers follow, and then come the messages.
   */
  lemma PacketBytes(message: Schema, p: Packet, values: seq<Value>)
    requires Carries(message, values, p.messages)
    ensures Encode(PacketSchema(message), PacketValue(p, values))
         == (Flag(p.reliable) + Flag(p.ordered) + Le(4, |p.messages|)) + (AckBytes(p.ack) + Joined(p.messages))
  {
    hide Encode, EncodeAll, FixedAll, TailAll, AckBytes, Le, AllTyped, Regions;
    var ackFields, ackValues := ACK_SCHEMA.fields, AckValue(p.ack).values;
    AckRegions(p.ack);
    StructBytes(ackFields, ackValues, AckBytes(p.ack), []);
    CarriedBytes(message, values, p.messages);
    NoFieldsRegions();
    ConsBytes(Vec(message), VList(values), [], []);
    var f1, v1 := [Vec(message)] + [], [VList(values)] + [];
    ConsBytes(Bool, VBool(p.ordered), f1, v1);
    var f2, v2 := [Bool] + f1, [VBool(p.ordered)] + v1;
    ConsBytes(Bool, VBool(p.reliable), f2, v2);
    var f3, v3 := [Bool] + f2, [VBool(p.reliable)] + v2;
    ConsBytes(ACK_SCHEMA, AckValue(p.ack), f3, v3);
    var f4, v4 := [ACK_SCHEMA] + f3, [AckValue(p.ack)] + v3;
    assert f4 == [ACK_SCHEMA, Bool, Bool, Vec(message)] && v4 == PacketValue(p, values).values;
    assert FixedAll(f4, v4) == Flag(p.reliable) + Flag(p.ordered) + Le(4, |p.messages|);
    assert TailAll(f4, v4) == AckBytes(p.ack) + Joined(p.messages);
    TwoRegions(f4, v4, Flag(p.reliable) + Flag(p.ordered) + Le(4, |p.messages|), AckBytes(p.ack) + Joined(p.messages));
  }

  lemma NoFieldsRegions()
    ensures FixedAll([], []) == [] && TailAll([], []) == []
  {
  }

  lemma TwoRegions(fields: seq<Schema>, values: seq<Value>, front: seq<u8>, back: seq<u8>)
    requires FixedAll(fields, values) == front && TailAll(fields, values) == back
    ensures Encode(Struct(fields), VStruct(values)) == front + back
  {
    StructBytes(fields, values, front, back);
  }
}

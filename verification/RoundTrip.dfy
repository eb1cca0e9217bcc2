/** Reading what was written returns the value, for every schema and whatever follows in the buffer. */
module RoundTrip {
  import opened Options
  import opened Packets
  import opened Schemas
  import opened Encoding
  import opened Decoding

  /** `piece` stands at offset `ptr` of the buffer. */
  ghost predicate At(bytes: seq<u8>, ptr: nat, piece: seq<u8>) {
    ptr + |piece| <= |bytes| && bytes[ptr..ptr + |piece|] == piece
  }

  lemma AtSplit(bytes: seq<u8>, ptr: nat, left: seq<u8>, right: seq<u8>)
    requires At(bytes, ptr, left + right)
    ensures At(bytes, ptr, left) && At(bytes, ptr + |left|, right)
  {
    var whole := bytes[ptr..ptr + |left + right|];
    assert whole[..|left|] == left && whole[|left|..] == right;
    assert bytes[ptr..ptr + |left|] == whole[..|left|];
    assert bytes[ptr + |left|..ptr + |left| + |right|] == whole[|left|..];
  }

  lemma AtDrop(bytes: seq<u8>, ptr: nat, at: nat, piece: seq<u8>)
    requires At(bytes, ptr + at, piece)
    ensures ptr <= |bytes| && At(bytes[ptr..], at, piece)
  {
    assert bytes[ptr..][at..at + |piece|] == bytes[ptr + at..ptr + at + |piece|];
  }

  lemma Append<T>(done: seq<T>, all: seq<T>)
    requires all != []
    ensures (done + [all[0]]) + all[1..] == done + all
  {
  }

  lemma Nothing<T>(done: seq<T>)
    ensures done + [] == done && [] + done == done
  {
  }

  /** What the fixed part of a value says. */
  function HeaderOf(s: Schema, v: Value): Header {
    match (s, v)
    case (Unit, _) => Ready(v)
    case (Bool, _) => Ready(v)
    case (Scalar(_), _) => Ready(v)
    case (Str, VStr(text)) => Count(|text|)
    case (Opt(_), _) => Flag(v.VSome?)
    case (Vec(_), VList(items)) => Count(|items|)
    case _ => NoHeader
  }

  function HeadersOf(fields: seq<Schema>, values: seq<Value>): seq<Header> {
    if fields == [] || values == [] then [] else [HeaderOf(fields[0], values[0])] + HeadersOf(fields[1..], values[1..])
  }

  lemma FixedRoundTrip(s: Schema, v: Value, bytes: seq<u8>, at: nat)
    requires Typed(s, v) && At(bytes, at, Fixed(s, v))
    ensures ReadFixed(s, bytes, at) == Ok(HeaderOf(s, v))
  {
    match (s, v) {
      case (Scalar(width), VScalar(bits)) => LeRoundTrip(width, bits);
      case (Str, VStr(text)) => CountRoundTrip(|text|);
      case (Vec(_), VList(items)) => CountRoundTrip(|items|);
      case (Bool, VBool(b)) => assert bytes[at] == bytes[at..at + 1][0];
      case (Opt(_), _) => assert bytes[at] == bytes[at..at + 1][0];
      case _ =>
    }
  }

  lemma CountRoundTrip(n: nat)
    requires n < U32_LIMIT
    ensures FromLe(Le(4, n % U32_LIMIT)) == n
  {
    hide FromLe, Le;
    assert Pow256(2) == 0x1_0000;
    assert Pow256(4) == U32_LIMIT;
    LeRoundTrip(4, n);
  }

  lemma {:induction false} HeadersRoundTrip(fields: seq<Schema>, values: seq<Value>, bytes: seq<u8>, at: nat, done: seq<Header>)
    requires AllWellFormed(fields) && FieldsTyped(fields, values) && At(bytes, at, FixedAll(fields, values))
    ensures ReadHeaders(fields, bytes, at, done) == Ok(done + HeadersOf(fields, values))
    decreases |fields|
  {
    hide Fixed, ReadFixed, Typed, WellFormed, HeaderOf, At;
    if fields == [] {
      Nothing(done);
    } else {
      var rest, header := FixedAll(fields[1..], values[1..]), HeaderOf(fields[0], values[0]);
      AtSplit(bytes, at, Fixed(fields[0], values[0]), rest);
      FixedRoundTrip(fields[0], values[0], bytes, at);
      LengthIsExact(fields[0], values[0]);
      HeadersRoundTrip(fields[1..], values[1..], bytes, at + FixedLen(fields[0]), done + [header]);
      Append(done, HeadersOf(fields, values));
    }
  }

  /** `v` is read back from its variable part, and the pointer moves on by exactly what was written. */
  ghost predicate TailReads(s: Schema, v: Value, bytes: seq<u8>, ptr: nat) {
    ReadTail(s, HeaderOf(s, v), bytes, ptr) == Ok((v, ptr + TailLen(s, v)))
  }

  lemma {:induction false} TailRoundTrip(s: Schema, v: Value, bytes: seq<u8>, ptr: nat)
    requires WellFormed(s) && Typed(s, v) && At(bytes, ptr, Tail(s, v))
    ensures TailReads(s, v, bytes, ptr)
    decreases v, 4
  {
    hide TailReads, At;
    match (s, v) {
      case (Opt(inner), VSome(value)) => OptRoundTrip(inner, value, bytes, ptr);
      case (Vec(item), VList(items)) => VecRoundTrip(item, items, bytes, ptr);
      case (Arr(item, _), VList(items)) => ArrRoundTrip(item, items, bytes, ptr);
      case (Struct(fields), VStruct(values)) => StructRoundTrip(fields, values, bytes, ptr);
      case (Enum(variants), VEnum(tag, values)) => EnumRoundTrip(variants, tag, values, bytes, ptr);
      case _ => PlainRoundTrip(s, v, bytes, ptr);
    }
  }

  lemma PlainRoundTrip(s: Schema, v: Value, bytes: seq<u8>, ptr: nat)
    requires Typed(s, v) && At(bytes, ptr, Tail(s, v))
    requires s.Unit? || s.Bool? || s.Scalar? || s.Str? || v.VNone?
    ensures TailReads(s, v, bytes, ptr)
  {
  }

  /** The value inside an option is read at the pointer, fixed part first. */
  lemma {:induction false} OptRoundTrip(inner: Schema, value: Value, bytes: seq<u8>, ptr: nat)
    requires WellFormed(Opt(inner)) && Typed(inner, value) && At(bytes, ptr, Tail(Opt(inner), VSome(value)))
    ensures TailReads(Opt(inner), VSome(value), bytes, ptr)
    decreases value, 5
  {
    hide Fixed, ReadFixed, At, TailReads, HeaderOf, FixedLen, TailLen;
    assert Tail(Opt(inner), VSome(value)) == Encode(inner, value);
    AtSplit(bytes, ptr, Fixed(inner, value), Tail(inner, value));
    FixedRoundTrip(inner, value, bytes, ptr);
    LengthIsExact(inner, value);
    TailRoundTrip(inner, value, bytes, ptr + FixedLen(inner));
    OptReads(inner, value, bytes, ptr);
  }

  lemma OptReads(inner: Schema, value: Value, bytes: seq<u8>, ptr: nat)
    requires ReadFixed(inner, bytes, ptr) == Ok(HeaderOf(inner, value))
    requires TailReads(inner, value, bytes, ptr + FixedLen(inner))
    ensures TailReads(Opt(inner), VSome(value), bytes, ptr)
  {
    hide ReadFixed;
  }

  lemma {:induction false} VecRoundTrip(item: Schema, items: seq<Value>, bytes: seq<u8>, ptr: nat)
    requires WellFormed(item) && AllTyped(item, items) && At(bytes, ptr, EncodeAll(item, items))
    ensures TailReads(Vec(item), VList(items), bytes, ptr)
    decreases items, 1
  {
    hide At, EncodeAll, ReadItems, ByteLenAll, AllTyped, WellFormed;
    ItemsRoundTrip(item, items, bytes, ptr, []);
    Nothing(items);
  }

  lemma {:induction false} ArrRoundTrip(item: Schema, items: seq<Value>, bytes: seq<u8>, ptr: nat)
    requires WellFormed(item) && AllTyped(item, items) && At(bytes, ptr, EncodeAll(item, items))
    ensures TailReads(Arr(item, |items|), VList(items), bytes, ptr)
    decreases items, 1
  {
    hide At, EncodeAll, ReadItems, ByteLenAll, AllTyped, WellFormed;
    ItemsRoundTrip(item, items, bytes, ptr, []);
    Nothing(items);
  }

  lemma {:induction false} StructRoundTrip(fields: seq<Schema>, values: seq<Value>, bytes: seq<u8>, ptr: nat)
    requires AllWellFormed(fields) && FieldsTyped(fields, values)
    requires At(bytes, ptr, FixedAll(fields, values) + TailAll(fields, values))
    ensures TailReads(Struct(fields), VStruct(values), bytes, ptr)
    decreases values, 2
  {
    AtDrop(bytes, ptr, 0, FixedAll(fields, values) + TailAll(fields, values));
    FieldsRoundTrip(fields, values, bytes[ptr..], 0);
  }

  lemma {:induction false} EnumRoundTrip(variants: seq<Variant>, tag: nat, values: seq<Value>, bytes: seq<u8>, ptr: nat)
    requires WellFormed(Enum(variants)) && Typed(Enum(variants), VEnum(tag, values))
    requires At(bytes, ptr, Tail(Enum(variants), VEnum(tag, values)))
    ensures TailReads(Enum(variants), VEnum(tag, values), bytes, ptr)
    decreases values, 3
  {
    hide ReadVariant;
    VariantRoundTrip(variants, tag, values, bytes, ptr);
  }

  lemma {:induction false} VariantRoundTrip(variants: seq<Variant>, tag: nat, values: seq<Value>, bytes: seq<u8>, ptr: nat)
    requires WellFormed(Enum(variants)) && Typed(Enum(variants), VEnum(tag, values))
    requires At(bytes, ptr, Tail(Enum(variants), VEnum(tag, values)))
    ensures ptr <= |bytes| && ReadVariant(variants, bytes[ptr..]) == Ok(VEnum(tag, values))
    decreases values, 2
  {
    var fields, tagBytes := variants[tag].fields, TagBytes(|variants|, tag);
    VariantLenIs(|variants|);
    AtSplit(bytes, ptr, tagBytes, FixedAll(fields, values) + TailAll(fields, values));
    AtDrop(bytes, ptr, |tagBytes|, FixedAll(fields, values) + TailAll(fields, values));
    FieldsRoundTrip(fields, values, bytes[ptr..], |tagBytes|);
    if |variants| > 1 {
      assert bytes[ptr..][0] == bytes[ptr..ptr + 1][0] == tag;
    }
  }

  lemma {:induction false} ItemsRoundTrip(item: Schema, items: seq<Value>, bytes: seq<u8>, ptr: nat, done: seq<Value>)
    requires WellFormed(item) && AllTyped(item, items) && At(bytes, ptr, EncodeAll(item, items))
    ensures ReadItems(item, |items|, bytes, ptr, done) == Ok((VList(done + items), ptr + ByteLenAll(item, items)))
    decreases items, 0
  {
    hide Encode, Decode, ByteLen, Typed, WellFormed, At;
    if items == [] {
      Nothing(done);
    } else {
      var v, rest := items[0], items[1..];
      AtSplit(bytes, ptr, Encode(item, v), EncodeAll(item, rest));
      AtDrop(bytes, ptr, 0, Encode(item, v));
      DecodeRoundTrip(item, v, bytes[ptr..]);
      LengthIsExact(item, v);
      ItemsRoundTrip(item, rest, bytes, ptr + ByteLen(item, v), done + [v]);
      Append(done, items);
    }
  }

  lemma {:induction false} FieldsRoundTrip(fields: seq<Schema>, values: seq<Value>, bytes: seq<u8>, base: nat)
    requires AllWellFormed(fields) && FieldsTyped(fields, values)
    requires At(bytes, base, FixedAll(fields, values) + TailAll(fields, values))
    ensures ReadFields(fields, bytes, base) == Ok(values)
    decreases values, 1
  {
    hide At, FixedAll, TailAll, ReadHeaders, ReadTails, FieldsTyped, AllWellFormed, TailLenAll;
    AtSplit(bytes, base, FixedAll(fields, values), TailAll(fields, values));
    FieldLengths(fields, values);
    HeadersRoundTrip(fields, values, bytes, base, []);
    Nothing(HeadersOf(fields, values));
    TailsRoundTrip(fields, values, bytes, base + FixedLenAll(fields), []);
    Nothing(values);
  }

  lemma {:induction false} TailsRoundTrip(fields: seq<Schema>, values: seq<Value>, bytes: seq<u8>, ptr: nat, done: seq<Value>)
    requires AllWellFormed(fields) && FieldsTyped(fields, values) && At(bytes, ptr, TailAll(fields, values))
    ensures |HeadersOf(fields, values)| == |fields|
    ensures ReadTails(fields, HeadersOf(fields, values), bytes, ptr, done) == Ok(done + values)
    decreases values, 0
  {
    hide Tail, Fixed, ReadTail, TailLen, FixedLen, Typed, WellFormed, HeaderOf, At;
    if fields == [] {
      Nothing(done);
    } else {
      AtSplit(bytes, ptr, Tail(fields[0], values[0]), TailAll(fields[1..], values[1..]));
      TailRoundTrip(fields[0], values[0], bytes, ptr);
      LengthIsExact(fields[0], values[0]);
      TailsRoundTrip(fields[1..], values[1..], bytes, ptr + TailLen(fields[0], values[0]), done + [values[0]]);
      assert HeadersOf(fields, values)[1..] == HeadersOf(fields[1..], values[1..]);
      Append(done, values);
    }
  }

  /** Any buffer that starts with the bytes of a value is read as that value. */
  lemma {:induction false} DecodeRoundTrip(s: Schema, v: Value, bytes: seq<u8>)
    requires WellFormed(s) && Typed(s, v) && At(bytes, 0, Encode(s, v))
    ensures Decode(s, bytes) == Ok(v)
    decreases v, 6
  {
    AtSplit(bytes, 0, Fixed(s, v), Tail(s, v));
    FixedRoundTrip(s, v, bytes, 0);
    LengthIsExact(s, v);
    TailRoundTrip(s, v, bytes, FixedLen(s));
  }

  /** Different values never have the same bytes, not even up to what follows. */
  lemma EncodingIsPrefixFree(s: Schema, v: Value, w: Value, more: seq<u8>)
    requires WellFormed(s) && Typed(s, v) && Typed(s, w)
    requires Encode(s, w) == Encode(s, v) + more
    ensures v == w
  {
    DecodeRoundTrip(s, v, Encode(s, w));
    DecodeRoundTrip(s, w, Encode(s, w));
  }
}

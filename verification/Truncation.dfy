/** Reading depends on the bytes of a value only, and needs all of them. */
module Truncation {
  import opened Options
  import opened Packets
  import opened Schemas
  import opened Encoding
  import opened Decoding
  import opened RoundTrip
  import opened ReadSoundness

  lemma FixedExtends(s: Schema, bytes: seq<u8>, more: seq<u8>, at: nat)
    requires ReadFixed(s, bytes, at).Ok?
    ensures ReadFixed(s, bytes + more, at) == ReadFixed(s, bytes, at)
  {
    hide FromLe;
    match s {
      case Scalar(width) => assert (bytes + more)[at..at + width] == bytes[at..at + width];
      case Str => assert (bytes + more)[at..at + 4] == bytes[at..at + 4];
      case Vec(_) => assert (bytes + more)[at..at + 4] == bytes[at..at + 4];
      case _ =>
    }
  }

  lemma {:induction false} TailExtends(s: Schema, h: Header, bytes: seq<u8>, more: seq<u8>, ptr: nat)
    requires ReadTail(s, h, bytes, ptr).Ok?
    ensures ReadTail(s, h, bytes + more, ptr) == ReadTail(s, h, bytes, ptr)
    decreases s, 1
  {
    hide ReadFixed, ByteLen, ReadItems, ReadFields, ReadVariant;
    match s {
      case Str =>
        if h.Count? {
          assert (bytes + more)[ptr..ptr + h.n] == bytes[ptr..ptr + h.n];
        }
      case Opt(inner) =>
        if h.Flag? && h.b {
          var fixed := ReadFixed(inner, bytes, ptr);
          FixedExtends(inner, bytes, more, ptr);
          TailExtends(inner, fixed.value, bytes, more, ptr + FixedLen(inner));
        }
      case Vec(item) =>
        if h.Count? {
          ItemsExtend(item, h.n, bytes, more, ptr, []);
        }
      case Arr(item, count) => ItemsExtend(item, count, bytes, more, ptr, []);
      case Struct(fields) =>
        assert (bytes + more)[ptr..] == bytes[ptr..] + more;
        FieldsExtend(fields, bytes[ptr..], more, 0);
      case Enum(variants) =>
        assert (bytes + more)[ptr..] == bytes[ptr..] + more;
        VariantExtends(variants, bytes[ptr..], more);
      case _ =>
    }
  }

  lemma {:induction false} ItemsExtend(item: Schema, n: nat, bytes: seq<u8>, more: seq<u8>, ptr: nat, done: seq<Value>)
    requires ReadItems(item, n, bytes, ptr, done).Ok?
    ensures ReadItems(item, n, bytes + more, ptr, done) == ReadItems(item, n, bytes, ptr, done)
    decreases item, 3, n
  {
    hide Decode, ByteLen;
    if n > 0 {
      var v := Decode(item, bytes[ptr..]);
      assert (bytes + more)[ptr..] == bytes[ptr..] + more;
      DecodeExtends(item, bytes[ptr..], more);
      ItemsExtend(item, n - 1, bytes, more, ptr + ByteLen(item, v.value), done + [v.value]);
    }
  }

  lemma {:induction false} FieldsExtend(fields: seq<Schema>, bytes: seq<u8>, more: seq<u8>, base: nat)
    requires ReadFields(fields, bytes, base).Ok?
    ensures ReadFields(fields, bytes + more, base) == ReadFields(fields, bytes, base)
    decreases fields, 1
  {
    hide ReadHeaders, ReadTails;
    var headers := ReadHeaders(fields, bytes, base, []);
    HeadersExtend(fields, bytes, more, base, []);
    TailsExtend(fields, headers.value, bytes, more, base + FixedLenAll(fields), []);
  }

  lemma {:induction false} HeadersExtend(fields: seq<Schema>, bytes: seq<u8>, more: seq<u8>, at: nat, done: seq<Header>)
    requires ReadHeaders(fields, bytes, at, done).Ok?
    ensures ReadHeaders(fields, bytes + more, at, done) == ReadHeaders(fields, bytes, at, done)
    decreases |fields|
  {
    hide ReadFixed, FixedLen;
    if fields != [] {
      var fixed := ReadFixed(fields[0], bytes, at);
      FixedExtends(fields[0], bytes, more, at);
      HeadersExtend(fields[1..], bytes, more, at + FixedLen(fields[0]), done + [fixed.value]);
    }
  }

  lemma {:induction false} TailsExtend(fields: seq<Schema>, headers: seq<Header>, bytes: seq<u8>, more: seq<u8>, ptr: nat, done: seq<Value>)
    requires |headers| == |fields| && ReadTails(fields, headers, bytes, ptr, done).Ok?
    ensures ReadTails(fields, headers, bytes + more, ptr, done) == ReadTails(fields, headers, bytes, ptr, done)
    decreases fields, 0
  {
    hide ReadTail;
    if fields != [] {
      var tail := ReadTail(fields[0], headers[0], bytes, ptr);
      TailExtends(fields[0], headers[0], bytes, more, ptr);
      TailsExtend(fields[1..], headers[1..], bytes, more, tail.value.1, done + [tail.value.0]);
    }
  }

  lemma {:induction false} VariantExtends(variants: seq<Variant>, bytes: seq<u8>, more: seq<u8>)
    requires ReadVariant(variants, bytes).Ok?
    ensures ReadVariant(variants, bytes + more) == ReadVariant(variants, bytes)
    decreases variants, 0
  {
    hide ReadFields, VariantLen;
    if |variants| == 1 {
      FieldsExtend(variants[0].fields, bytes, more, 0);
    } else {
      FieldsExtend(variants[bytes[0]].fields, bytes, more, VariantLen(|variants|));
    }
  }

  /** Bytes after those of a value make no difference to a successful read. */
  lemma {:induction false} DecodeExtends(s: Schema, bytes: seq<u8>, more: seq<u8>)
    requires Decode(s, bytes).Ok?
    ensures Decode(s, bytes + more) == Decode(s, bytes)
    decreases s, 2
  {
    hide ReadFixed, ReadTail;
    var fixed := ReadFixed(s, bytes, 0);
    FixedExtends(s, bytes, more, 0);
    TailExtends(s, fixed.value, bytes, more, FixedLen(s));
  }

  /** Reading fails, instead of making something up, if only a part of the bytes of a value is there. */
  lemma TruncatedFails(s: Schema, v: Value, n: nat)
    requires WellFormed(s) && Typed(s, v) && n < |Encode(s, v)|
    ensures Decode(s, Encode(s, v)[..n]).Err?
  {
    hide Decode, Encode, WellFormed, Typed, ByteLen;
    var bytes := Encode(s, v);
    LengthIsExact(s, v);
    if Decode(s, bytes[..n]).Ok? {
      assert bytes[..n] + bytes[n..] == bytes;
      DecodeExtends(s, bytes[..n], bytes[n..]);
      assert bytes[0..|bytes|] == bytes;
      DecodeRoundTrip(s, v, bytes);
      DecodeIsSound(s, bytes[..n]);
    }
  }

  /** A flag is set by the byte 1 alone, and an unknown discriminant is an error. */
  lemma FlagsAndTags(inner: Schema, variants: seq<Variant>, bytes: seq<u8>)
    requires bytes != []
    ensures Decode(Bool, bytes) == Ok(VBool(bytes[0] == 1))
    ensures bytes[0] != 1 ==> Decode(Opt(inner), bytes) == Ok(VNone)
    ensures 1 < |variants| <= bytes[0] ==> Decode(Enum(variants), bytes) == Err(InvalidValue)
  {
    assert bytes[0..] == bytes;
    if 1 < |variants| <= bytes[0] {
      assert ReadVariant(variants, bytes) == Err(InvalidValue);
      assert ReadTail(Enum(variants), NoHeader, bytes, 0) == Err(InvalidValue);
    }
  }
}

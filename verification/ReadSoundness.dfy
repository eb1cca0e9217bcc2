/** Whatever is read, from any bytes at all, is a value of the schema and fits into the buffer. */
module ReadSoundness {
  import opened Packets
  import opened Schemas
  import opened Encoding
  import opened Decoding

  /** A header that the fixed part of some value of the schema could have. */
  predicate HeaderFits(s: Schema, h: Header) {
    match s
    case Unit => h == Ready(VUnit)
    case Bool => h.Ready? && h.v.VBool?
    case Scalar(width) => h.Ready? && h.v.VScalar? && h.v.bits < Pow256(width)
    case Str => h.Count? && h.n < U32_LIMIT
    case Opt(_) => h.Flag?
    case Vec(_) => h.Count? && h.n < U32_LIMIT
    case _ => h == NoHeader
  }

  lemma FixedFits(s: Schema, bytes: seq<u8>, at: nat)
    requires ReadFixed(s, bytes, at).Ok? && at <= |bytes|
    ensures HeaderFits(s, ReadFixed(s, bytes, at).value)
    ensures at + FixedLen(s) <= |bytes|
  {
    match s {
      case Scalar(width) => FromLeBound(bytes[at..at + width]);
      case Str => CountFits(bytes, at);
      case Vec(_) => CountFits(bytes, at);
      case _ =>
    }
  }

  lemma CountFits(bytes: seq<u8>, at: nat)
    requires at + 4 <= |bytes|
    ensures FromLe(bytes[at..at + 4]) < U32_LIMIT
  {
    assert Pow256(2) == 0x1_0000;
    assert Pow256(4) == U32_LIMIT;
    FromLeBound(bytes[at..at + 4]);
  }

  /** The value is of the schema, and the pointer has moved on by its variable part, within the buffer. */
  ghost predicate TailFits(s: Schema, r: Read<(Value, nat)>, bytes: seq<u8>, ptr: nat) {
    r.Ok? ==> Typed(s, r.value.0) && r.value.1 == ptr + TailLen(s, r.value.0) <= |bytes|
  }

  lemma {:induction false} TailIsSound(s: Schema, h: Header, bytes: seq<u8>, ptr: nat)
    requires WellFormed(s) && HeaderFits(s, h) && ptr <= |bytes|
    ensures TailFits(s, ReadTail(s, h, bytes, ptr), bytes, ptr)
    decreases s, 1
  {
    match s {
      case Opt(inner) => OptIsSound(inner, h.b, bytes, ptr);
      case Vec(item) => VecIsSound(item, h.n, bytes, ptr);
      case Arr(item, count) => ArrIsSound(item, count, bytes, ptr);
      case Struct(fields) => FieldsAreSound(fields, bytes[ptr..], 0);
      case Enum(variants) => VariantIsSound(variants, bytes[ptr..]);
      case _ =>
    }
  }

  lemma {:induction false} OptIsSound(inner: Schema, present: bool, bytes: seq<u8>, ptr: nat)
    requires WellFormed(inner) && ptr <= |bytes|
    ensures TailFits(Opt(inner), ReadTail(Opt(inner), Flag(present), bytes, ptr), bytes, ptr)
    decreases inner, 6
  {
    hide ReadFixed, HeaderFits, WellFormed;
    var fixed := ReadFixed(inner, bytes, ptr);
    if present && fixed.Ok? {
      FixedFits(inner, bytes, ptr);
      TailIsSound(inner, fixed.value, bytes, ptr + FixedLen(inner));
    }
  }

  lemma {:induction false} VecIsSound(item: Schema, n: nat, bytes: seq<u8>, ptr: nat)
    requires WellFormed(item) && n < U32_LIMIT && ptr <= |bytes|
    ensures TailFits(Vec(item), ReadTail(Vec(item), Count(n), bytes, ptr), bytes, ptr)
    decreases item, 6
  {
    ItemsAreSound(item, n, bytes, ptr, []);
  }

  lemma {:induction false} ArrIsSound(item: Schema, n: nat, bytes: seq<u8>, ptr: nat)
    requires WellFormed(item) && ptr <= |bytes|
    ensures TailFits(Arr(item, n), ReadTail(Arr(item, n), NoHeader, bytes, ptr), bytes, ptr)
    decreases item, 6
  {
    ItemsAreSound(item, n, bytes, ptr, []);
  }

  lemma {:induction false} AppendTyped(item: Schema, done: seq<Value>, v: Value)
    requires AllTyped(item, done) && Typed(item, v)
    ensures AllTyped(item, done + [v])
    ensures ByteLenAll(item, done + [v]) == ByteLenAll(item, done) + ByteLen(item, v)
  {
    hide Typed, ByteLen;
    if done != [] {
      AppendTyped(item, done[1..], v);
      assert (done + [v])[1..] == done[1..] + [v];
    }
  }

  lemma {:induction false} ItemsAreSound(item: Schema, n: nat, bytes: seq<u8>, ptr: nat, done: seq<Value>)
    requires WellFormed(item) && AllTyped(item, done) && ptr <= |bytes|
    ensures var r := ReadItems(item, n, bytes, ptr, done);
      r.Ok? ==>
        && r.value.0.VList? && |r.value.0.items| == |done| + n && AllTyped(item, r.value.0.items)
        && r.value.1 + ByteLenAll(item, done) == ptr + ByteLenAll(item, r.value.0.items)
        && r.value.1 <= |bytes|
    decreases item, 4, n
  {
    hide Typed, ByteLen, Decode, WellFormed;
    if n > 0 && Decode(item, bytes[ptr..]).Ok? {
      var v := Decode(item, bytes[ptr..]).value;
      DecodeIsSound(item, bytes[ptr..]);
      AppendTyped(item, done, v);
      ItemsAreSound(item, n - 1, bytes, ptr + ByteLen(item, v), done + [v]);
    }
  }

  ghost predicate HeadersFit(fields: seq<Schema>, headers: seq<Header>) {
    |headers| == |fields| && forall i :: 0 <= i < |fields| ==> HeaderFits(fields[i], headers[i])
  }

  lemma {:induction false} HeadersAreSound(all: seq<Schema>, i: nat, bytes: seq<u8>, at: nat, done: seq<Header>)
    requires i <= |all| && at <= |bytes| && HeadersFit(all[..i], done)
    ensures var r := ReadHeaders(all[i..], bytes, at, done);
      r.Ok? ==> HeadersFit(all, r.value) && at + FixedLenAll(all[i..]) <= |bytes|
    decreases |all| - i
  {
    hide ReadFixed, HeaderFits, FixedLen;
    if i == |all| {
      assert all[..i] == all;
    } else {
      var fixed := ReadFixed(all[i], bytes, at);
      assert all[i..][1..] == all[i + 1..];
      if fixed.Ok? {
        FixedFits(all[i], bytes, at);
        assert all[..i + 1] == all[..i] + [all[i]];
        HeadersAreSound(all, i + 1, bytes, at + FixedLen(all[i]), done + [fixed.value]);
      }
    }
  }

  lemma {:induction false} AppendFields(fields: seq<Schema>, values: seq<Value>, f: Schema, v: Value)
    requires FieldsTyped(fields, values) && Typed(f, v)
    ensures FieldsTyped(fields + [f], values + [v])
    ensures TailLenAll(fields + [f], values + [v]) == TailLenAll(fields, values) + TailLen(f, v)
  {
    hide Typed, TailLen;
    if fields == [] {
      assert [f][1..] == [] && [v][1..] == [];
    } else {
      AppendFields(fields[1..], values[1..], f, v);
      assert (fields + [f])[1..] == fields[1..] + [f] && (values + [v])[1..] == values[1..] + [v];
    }
  }

  lemma {:induction false} TailsAreSound(before: seq<Schema>, fields: seq<Schema>, headers: seq<Header>,
                                         bytes: seq<u8>, ptr: nat, done: seq<Value>)
    requires AllWellFormed(fields) && HeadersFit(fields, headers) && ptr <= |bytes|
    requires FieldsTyped(before, done)
    ensures var r := ReadTails(fields, headers, bytes, ptr, done);
      r.Ok? ==>
        && FieldsTyped(before + fields, r.value)
        && ptr + TailLenAll(before + fields, r.value) <= |bytes| + TailLenAll(before, done)
    decreases fields, 0
  {
    hide Typed, TailLen, ReadTail, HeaderFits, WellFormed;
    if fields == [] {
      assert before + fields == before;
    } else {
      var tail := ReadTail(fields[0], headers[0], bytes, ptr);
      TailIsSound(fields[0], headers[0], bytes, ptr);
      if tail.Ok? {
        AppendFields(before, done, fields[0], tail.value.0);
        TailsAreSound(before + [fields[0]], fields[1..], headers[1..], bytes, tail.value.1, done + [tail.value.0]);
        assert (before + [fields[0]]) + fields[1..] == before + fields;
      }
    }
  }

  lemma {:induction false} FieldsAreSound(fields: seq<Schema>, bytes: seq<u8>, base: nat)
    requires AllWellFormed(fields) && base <= |bytes|
    ensures var r := ReadFields(fields, bytes, base);
      r.Ok? ==> FieldsTyped(fields, r.value) && base + FixedLenAll(fields) + TailLenAll(fields, r.value) <= |bytes|
    decreases fields, 1
  {
    var headers := ReadHeaders(fields, bytes, base, []);
    assert fields[0..] == fields && fields[..0] == [];
    HeadersAreSound(fields, 0, bytes, base, []);
    if headers.Ok? {
      TailsAreSound([], fields, headers.value, bytes, base + FixedLenAll(fields), []);
      assert [] + fields == fields;
    }
  }

  lemma {:induction false} VariantIsSound(variants: seq<Variant>, bytes: seq<u8>)
    requires WellFormed(Enum(variants))
    ensures var r := ReadVariant(variants, bytes);
      r.Ok? ==> Typed(Enum(variants), r.value) && ByteLen(Enum(variants), r.value) <= |bytes|
    decreases variants, 0
  {
    VariantLenIs(|variants|);
    if |variants| == 1 {
      FieldsAreSound(variants[0].fields, bytes, 0);
    } else if bytes != [] && bytes[0] < |variants| {
      FieldsAreSound(variants[bytes[0]].fields, bytes, 1);
    }
  }

  /** A successful read returns a value of the schema that takes no more bytes than there are. */
  lemma {:induction false} DecodeIsSound(s: Schema, bytes: seq<u8>)
    requires WellFormed(s)
    ensures Decode(s, bytes).Ok? ==> Typed(s, Decode(s, bytes).value) && ByteLen(s, Decode(s, bytes).value) <= |bytes|
    decreases s, 2
  {
    hide ReadFixed, HeaderFits, WellFormed;
    var fixed := ReadFixed(s, bytes, 0);
    if fixed.Ok? {
      FixedFits(s, bytes, 0);
      TailIsSound(s, fixed.value, bytes, FixedLen(s));
    }
  }
}

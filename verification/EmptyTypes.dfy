/** Types without bytes: every value of such a type is read from nothing, so reading never fails. */
module EmptyTypes {
  import opened Options
  import opened Packets
  import opened Schemas
  import opened Encoding
  import opened Decoding
  import opened ReadSoundness
  import opened Lengths

  /** What the fixed part of a type without bytes says. */
  function EmptyHeader(s: Schema): Header {
    if s.Unit? then Ready(VUnit) else NoHeader
  }

  lemma EmptyFixed(s: Schema, bytes: seq<u8>, at: nat)
    requires WellFormed(s) && MinLen(s) == 0
    ensures FixedLen(s) == 0 && UnknownMin(s) == 0
    ensures ReadFixed(s, bytes, at) == Ok(EmptyHeader(s)) && HeaderFits(s, EmptyHeader(s))
  {
    hide MinLen, UnknownMin, Pow256, FromLe;
    NothingFixed(s);
  }

  lemma NothingFixed(s: Schema)
    requires MinLen(s) == 0
    ensures FixedLen(s) == 0 && UnknownMin(s) == 0
  {
    hide FixedLen, UnknownMin;
  }

  /** The variable part is read wherever the pointer stands, and leaves it there. */
  lemma {:induction false} EmptyTail(s: Schema, bytes: seq<u8>, ptr: nat)
    requires WellFormed(s) && MinLen(s) == 0 && ptr <= |bytes|
    ensures var r := ReadTail(s, EmptyHeader(s), bytes, ptr);
      r.Ok? && Typed(s, r.value.0) && r.value.1 == ptr
    decreases s, 1
  {
    hide Typed, WellFormed, MinLen, TailLen, UnknownMin;
    EmptyFixed(s, bytes, 0);
    TailIsSound(s, EmptyHeader(s), bytes, ptr);
    EmptyTailIsRead(s, bytes, ptr);
    NoTailBytes(s, ReadTail(s, EmptyHeader(s), bytes, ptr).value.0);
  }

  lemma {:induction false} EmptyTailIsRead(s: Schema, bytes: seq<u8>, ptr: nat)
    requires WellFormed(s) && FixedLen(s) == 0 && UnknownMin(s) == 0 && ptr <= |bytes|
    ensures ReadTail(s, EmptyHeader(s), bytes, ptr).Ok?
    decreases s, 0
  {
    hide KnownMin, ConstMinMaxList, MinOptions, AllKnown, VariantLen, ByteLen;
    match s {
      case Arr(item, count) =>
        if count > 0 {
          ZeroFactor(MinLen(item), count);
        }
        EmptyItems(item, count, bytes, ptr, []);
      case Struct(fields) => EmptyFields(fields, bytes[ptr..]);
      case Enum(variants) => EmptyVariant(variants, bytes[ptr..]);
      case _ =>
    }
  }

  lemma {:induction false} EmptyItems(item: Schema, n: nat, bytes: seq<u8>, ptr: nat, done: seq<Value>)
    requires WellFormed(item) && (n > 0 ==> MinLen(item) == 0) && ptr <= |bytes|
    ensures ReadItems(item, n, bytes, ptr, done).Ok?
    decreases item, 3, n
  {
    hide Decode, Typed, WellFormed, MinLen, ByteLen;
    if n > 0 {
      EmptyIsRead(item, bytes[ptr..]);
      DecodeIsSound(item, bytes[ptr..]);
      var v := Decode(item, bytes[ptr..]).value;
      ZeroMinMeansNoBytes(item, v);
      EmptyItems(item, n - 1, bytes, ptr, done + [v]);
    }
  }

  lemma {:induction false} EmptyFields(fields: seq<Schema>, bytes: seq<u8>)
    requires AllWellFormed(fields) && MinLenAll(fields) == 0
    ensures ReadFields(fields, bytes, 0).Ok?
    decreases fields, 1
  {
    EmptyHeaders(fields, bytes, []);
    EmptyTails(fields, seq(|fields|, i requires 0 <= i < |fields| => EmptyHeader(fields[i])), bytes, []);
    assert [] + seq(|fields|, i requires 0 <= i < |fields| => EmptyHeader(fields[i]))
        == seq(|fields|, i requires 0 <= i < |fields| => EmptyHeader(fields[i]));
  }

  lemma {:induction false} EmptyHeaders(fields: seq<Schema>, bytes: seq<u8>, done: seq<Header>)
    requires AllWellFormed(fields) && MinLenAll(fields) == 0
    ensures FixedLenAll(fields) == 0
    ensures ReadHeaders(fields, bytes, 0, done)
         == Ok(done + seq(|fields|, i requires 0 <= i < |fields| => EmptyHeader(fields[i])))
    decreases fields, 0
  {
    hide WellFormed, MinLen, ReadFixed, FixedLen, EmptyHeader;
    var headers := seq(|fields|, i requires 0 <= i < |fields| => EmptyHeader(fields[i]));
    if fields == [] {
      assert done + headers == done;
    } else {
      var rest := fields[1..];
      EmptyFixed(fields[0], bytes, 0);
      EmptyHeaders(rest, bytes, done + [EmptyHeader(fields[0])]);
      assert headers == [EmptyHeader(fields[0])] + seq(|rest|, i requires 0 <= i < |rest| => EmptyHeader(rest[i]));
      assert done + headers == (done + [EmptyHeader(fields[0])]) + headers[1..];
    }
  }

  lemma {:induction false} EmptyTails(fields: seq<Schema>, headers: seq<Header>, bytes: seq<u8>, done: seq<Value>)
    requires AllWellFormed(fields) && MinLenAll(fields) == 0
    requires |headers| == |fields| && forall i :: 0 <= i < |fields| ==> headers[i] == EmptyHeader(fields[i])
    ensures ReadTails(fields, headers, bytes, 0, done).Ok?
    decreases fields, 0
  {
    hide WellFormed, MinLen, ReadTail, EmptyHeader, Typed;
    if fields != [] {
      EmptyTail(fields[0], bytes, 0);
      EmptyTails(fields[1..], headers[1..], bytes, done + [ReadTail(fields[0], headers[0], bytes, 0).value.0]);
    }
  }

  lemma {:induction false} EmptyVariant(variants: seq<Variant>, bytes: seq<u8>)
    requires WellFormed(Enum(variants)) && UnknownMin(Enum(variants)) == 0
    ensures ReadVariant(variants, bytes).Ok?
    decreases variants, 2
  {
    OneVariant(variants);
    EmptyFields(variants[0].fields, bytes);
  }

  lemma OneVariant(variants: seq<Variant>)
    requires WellFormed(Enum(variants)) && UnknownMin(Enum(variants)) == 0
    ensures |variants| == 1 && AllWellFormed(variants[0].fields) && MinLenAll(variants[0].fields) == 0
  {
    VariantLenIs(|variants|);
    assert variants == [variants[0]];
    SingleVariantMin(variants[0]);
  }

  /** Whatever the buffer, a value of a type without bytes can be read from it, and takes nothing. */
  lemma {:induction false} EmptyIsRead(s: Schema, bytes: seq<u8>)
    requires WellFormed(s) && MinLen(s) == 0
    ensures Decode(s, bytes).Ok? && ByteLen(s, Decode(s, bytes).value) == 0
    decreases s, 2
  {
    hide WellFormed, MinLen, Typed, ByteLen, EmptyHeader, ReadTail;
    EmptyFixed(s, bytes, 0);
    EmptyTail(s, bytes, 0);
    ZeroMinMeansNoBytes(s, ReadTail(s, EmptyHeader(s), bytes, 0).value.0);
  }
}

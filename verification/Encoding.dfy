/**
 * The byte representation: the fixed parts of all fields first, then their variable parts, in order.
 */
module Encoding {
  import opened Packets
  import opened Schemas

  /** Little endian. */
  function Le(width: nat, n: nat): (bytes: seq<u8>)
    ensures |bytes| == width
  {
    if width == 0 then [] else [n % 256] + Le(width - 1, n / 256)
  }

  function FromLe(bytes: seq<u8>): nat {
    if bytes == [] then 0 else bytes[0] + 256 * FromLe(bytes[1..])
  }

  lemma {:induction false} LeRoundTrip(width: nat, n: nat)
    requires n < Pow256(width)
    ensures FromLe(Le(width, n)) == n
  {
    if width > 0 {
      LeRoundTrip(width - 1, n / 256);
      assert Le(width, n)[1..] == Le(width - 1, n / 256);
    }
  }

  lemma {:induction false} FromLeBound(bytes: seq<u8>)
    ensures FromLe(bytes) < Pow256(|bytes|)
  {
    if bytes != [] {
      FromLeBound(bytes[1..]);
    }
  }

  /** A number is read back from `width` little-endian bytes iff it is one that they can hold. */
  lemma LeRoundTripIff(width: nat, n: nat)
    ensures FromLe(Le(width, n)) == n <==> n < Pow256(width)
  {
    FromLeBound(Le(width, n));
    if n < Pow256(width) {
      LeRoundTrip(width, n);
    }
  }

  /** The part of a field that has the same size for every value. */
  function Fixed(s: Schema, v: Value): seq<u8> {
    match (s, v)
    case (Bool, VBool(b)) => [if b then 1 else 0]
    case (Scalar(width), VScalar(bits)) => Le(width, bits)
    case (Str, VStr(text)) => Le(4, |text| % U32_LIMIT)
    case (Opt(_), _) => [if v.VSome? then 1 else 0]
    case (Vec(_), VList(items)) => Le(4, |items| % U32_LIMIT)
    case _ => []
  }

  /** The part of a field whose size depends on the value. */
  function Tail(s: Schema, v: Value): seq<u8>
    decreases v, 0
  {
    match (s, v)
    case (Str, VStr(text)) => text
    case (Opt(inner), VSome(value)) => Encode(inner, value)
    case (Vec(item), VList(items)) => EncodeAll(item, items)
    case (Arr(item, _), VList(items)) => EncodeAll(item, items)
    case (Struct(fields), VStruct(values)) => FixedAll(fields, values) + TailAll(fields, values)
    case (Enum(variants), VEnum(tag, values)) =>
      if tag < |variants| then
        TagBytes(|variants|, tag) + (FixedAll(variants[tag].fields, values) + TailAll(variants[tag].fields, values))
      else []
    case _ => []
  }

  function TagBytes(variants: nat, tag: nat): seq<u8> {
    if variants <= 1 then [] else [tag % 256]
  }

  /** A value as it is written on its own, as an item of a list, or as a field of its own type. */
  function Encode(s: Schema, v: Value): seq<u8>
    decreases v, 1
  {
    Fixed(s, v) + Tail(s, v)
  }

  function EncodeAll(item: Schema, items: seq<Value>): seq<u8>
    decreases items, 0
  {
    if items == [] then [] else Encode(item, items[0]) + EncodeAll(item, items[1..])
  }

  function FixedAll(fields: seq<Schema>, values: seq<Value>): seq<u8>
    decreases values, 0
  {
    if fields == [] || values == [] then []
    else Fixed(fields[0], values[0]) + FixedAll(fields[1..], values[1..])
  }

  function TailAll(fields: seq<Schema>, values: seq<Value>): seq<u8>
    decreases values, 0
  {
    if fields == [] || values == [] then []
    else Tail(fields[0], values[0]) + TailAll(fields[1..], values[1..])
  }

  // ---------------------------------------------------------------- lengths

  function FixedLen(s: Schema): nat {
    match s
    case Bool => 1
    case Scalar(width) => width
    case Str => 4
    case Opt(_) => 1
    case Vec(_) => 4
    case _ => 0
  }

  function FixedLenAll(fields: seq<Schema>): nat {
    if fields == [] then 0 else FixedLen(fields[0]) + FixedLenAll(fields[1..])
  }

  function TailLen(s: Schema, v: Value): nat
    decreases v, 0
  {
    match (s, v)
    case (Str, VStr(text)) => |text|
    case (Opt(inner), VSome(value)) => FixedLen(inner) + TailLen(inner, value)
    case (Vec(item), VList(items)) => ByteLenAll(item, items)
    case (Arr(item, _), VList(items)) => ByteLenAll(item, items)
    case (Struct(fields), VStruct(values)) => FixedLenAll(fields) + TailLenAll(fields, values)
    case (Enum(variants), VEnum(tag, values)) =>
      if tag < |variants| then FixedLenAll(variants[tag].fields) + TailLenAll(variants[tag].fields, values) + VariantLen(|variants|)
      else 0
    case _ => 0
  }

  /** `byte_len`: computed from the schema and the value, without writing anything. */
  function ByteLen(s: Schema, v: Value): nat
    decreases v, 1
  {
    FixedLen(s) + TailLen(s, v)
  }

  function ByteLenAll(item: Schema, items: seq<Value>): nat
    decreases items, 0
  {
    if items == [] then 0 else ByteLen(item, items[0]) + ByteLenAll(item, items[1..])
  }

  function TailLenAll(fields: seq<Schema>, values: seq<Value>): nat
    decreases values, 0
  {
    if fields == [] || values == [] then 0
    else TailLen(fields[0], values[0]) + TailLenAll(fields[1..], values[1..])
  }

  /** `byte_len` is the exact number of bytes written. */
  lemma {:induction false} LengthIsExact(s: Schema, v: Value)
    requires WellFormed(s) && Typed(s, v)
    ensures |Encode(s, v)| == ByteLen(s, v)
    ensures |Fixed(s, v)| == FixedLen(s) && |Tail(s, v)| == TailLen(s, v)
    decreases v, 1
  {
    match (s, v) {
      case (Opt(inner), VSome(value)) => LengthIsExact(inner, value);
      case (Vec(item), VList(items)) => AllLengths(item, items);
      case (Arr(item, _), VList(items)) => AllLengths(item, items);
      case (Struct(fields), VStruct(values)) => FieldLengths(fields, values);
      case (Enum(variants), VEnum(tag, values)) =>
        VariantLenIs(|variants|);
        FieldLengths(variants[tag].fields, values);
      case _ =>
    }
  }

  lemma {:induction false} AllLengths(item: Schema, items: seq<Value>)
    requires WellFormed(item) && AllTyped(item, items)
    ensures |EncodeAll(item, items)| == ByteLenAll(item, items)
    decreases items, 0
  {
    if items != [] {
      LengthIsExact(item, items[0]);
      AllLengths(item, items[1..]);
    }
  }

  lemma {:induction false} FieldLengths(fields: seq<Schema>, values: seq<Value>)
    requires AllWellFormed(fields) && FieldsTyped(fields, values)
    ensures |FixedAll(fields, values)| == FixedLenAll(fields)
    ensures |TailAll(fields, values)| == TailLenAll(fields, values)
    decreases values, 0
  {
    if fields != [] {
      LengthIsExact(fields[0], values[0]);
      FieldLengths(fields[1..], values[1..]);
    }
  }

  lemma {:induction false} EncodeAppend(item: Schema, items: seq<Value>, v: Value)
    ensures EncodeAll(item, items + [v]) == EncodeAll(item, items) + Encode(item, v)
    ensures ByteLenAll(item, items + [v]) == ByteLenAll(item, items) + ByteLen(item, v)
    decreases |items|
  {
    hide Encode, ByteLen;
    if items == [] {
      assert [v][1..] == [];
    } else {
      EncodeAppend(item, items[1..], v);
      assert (items + [v])[1..] == items[1..] + [v];
    }
  }
}

/** The shapes of types that have a byte representation, and the values of each shape. */
module Schemas {
  import opened Packets

  /**
   * A type as the derive sees it. A scalar stands for an integer or float of `width` bytes, by its bit
   * pattern; `Struct` and `Enum` are types with an implementation of their own.
   */
  datatype Schema =
    | Unit
    | Bool
    | Scalar(width: nat)
    | Str
    | Opt(inner: Schema)
    | Vec(item: Schema)
    | Arr(item: Schema, count: nat)
    | Struct(fields: seq<Schema>)
    | Enum(variants: seq<Variant>)

  datatype Variant = Variant(fields: seq<Schema>)

  datatype Value =
    | VUnit
    | VBool(b: bool)
    | VScalar(bits: nat)
    | VStr(text: seq<u8>)
    | VNone
    | VSome(value: Value)
    | VList(items: seq<Value>)
    | VStruct(values: seq<Value>)
    | VEnum(tag: nat, values: seq<Value>)

  const U32_LIMIT: nat := 0x1_0000_0000

  function Pow256(n: nat): nat {
    if n == 0 then 1 else 256 * Pow256(n - 1)
  }

  /** Enums have between 1 and 256 variants. */
  ghost predicate WellFormed(s: Schema)
    decreases s
  {
    match s
    case Scalar(width) => width in {1, 2, 4, 8, 16}
    case Opt(inner) => WellFormed(inner)
    case Vec(item) => WellFormed(item)
    case Arr(item, _) => WellFormed(item)
    case Struct(fields) => AllWellFormed(fields)
    case Enum(variants) => 1 <= |variants| <= 256 && forall i :: 0 <= i < |variants| ==> AllWellFormed(variants[i].fields)
    case _ => true
  }

  ghost predicate AllWellFormed(fields: seq<Schema>)
    decreases fields
  {
    forall i :: 0 <= i < |fields| ==> WellFormed(fields[i])
  }

  /** Strings and vectors are shorter than what their 32-bit length field can count. */
  predicate Typed(s: Schema, v: Value)
    decreases v
  {
    match (s, v)
    case (Unit, VUnit) => true
    case (Bool, VBool(_)) => true
    case (Scalar(width), VScalar(bits)) => bits < Pow256(width)
    case (Str, VStr(text)) => |text| < U32_LIMIT
    case (Opt(_), VNone) => true
    case (Opt(inner), VSome(value)) => Typed(inner, value)
    case (Vec(item), VList(items)) => |items| < U32_LIMIT && AllTyped(item, items)
    case (Arr(item, count), VList(items)) => |items| == count && AllTyped(item, items)
    case (Struct(fields), VStruct(values)) => FieldsTyped(fields, values)
    case (Enum(variants), VEnum(tag, values)) => tag < |variants| && FieldsTyped(variants[tag].fields, values)
    case _ => false
  }

  predicate AllTyped(item: Schema, items: seq<Value>)
    decreases items
  {
    items == [] || (Typed(item, items[0]) && AllTyped(item, items[1..]))
  }

  predicate FieldsTyped(fields: seq<Schema>, values: seq<Value>)
    decreases values
  {
    if fields == [] || values == [] then fields == [] && values == []
    else Typed(fields[0], values[0]) && FieldsTyped(fields[1..], values[1..])
  }

  /** The number of bytes that number the variants of an enum. */
  function VariantLen(variants: nat): nat {
    (VariantBits(variants) + 7) / 8
  }

  function VariantBits(variants: nat): nat {
    if variants <= 1 then 0 else Ilog2(variants - 1) + 1
  }

  function Ilog2(n: nat): nat {
    if n <= 1 then 0 else 1 + Ilog2(n / 2)
  }

  /** Up to 256 variants are numbered by one byte, and a single variant by none. */
  lemma VariantLenIs(variants: nat)
    requires variants <= 256
    ensures VariantLen(variants) == if variants <= 1 then 0 else 1
  {
    if variants > 1 {
      Ilog2Below(variants - 1, 7);
    }
  }

  lemma {:induction false} Ilog2Below(n: nat, bits: nat)
    requires n < Power2(bits + 1)
    ensures Ilog2(n) <= bits
    decreases bits
  {
    if n > 1 {
      if bits > 0 {
        Ilog2Below(n / 2, bits - 1);
      }
    }
  }
}

/** The compile-time bounds on the length of a byte representation. */
module Lengths {
  import opened Schemas
  import opened Encoding

  const USIZE_MAX: nat := 0xFFFF_FFFF_FFFF_FFFF
  const MAX_STRING: nat := 1020
  const MAX_ITEMS: nat := 1000

  /** The comparison of all of `rest` with `first`, as one conjunction. */
  predicate Beats(first: nat, rest: seq<nat>, smallest: bool) {
    forall x :: x in rest ==> if smallest then first <= x else first >= x
  }

  /** The nested conditional that picks the smallest or the largest option. */
  function ConstMinMaxList(options: seq<nat>, smallest: bool): nat
    requires options != []
  {
    if |options| == 1 || Beats(options[0], options[1..], smallest) then options[0]
    else ConstMinMaxList(options[1..], smallest)
  }

  /** It is an option, and no option is smaller, or larger. */
  lemma {:induction false} ConstMinMaxIsExtreme(options: seq<nat>, smallest: bool)
    requires options != []
    ensures var r := ConstMinMaxList(options, smallest); r in options && Beats(r, options, smallest)
  {
    if |options| == 1 || Beats(options[0], options[1..], smallest) {
      assert options == [options[0]] + options[1..];
    } else {
      ConstMinMaxIsExtreme(options[1..], smallest);
      var r, x :| r == ConstMinMaxList(options[1..], smallest) && x in options[1..]
                  && !(if smallest then options[0] <= x else options[0] >= x);
      assert options == [options[0]] + options[1..];
    }
  }

  /** The length of the field is fixed except for parts with a compile-time bound of their own type. */
  predicate HasUnknownMin(s: Schema) {
    s.Arr? || s.Struct? || s.Enum?
  }

  predicate HasUnknownMax(s: Schema) {
    HasUnknownMin(s) || s.Str? || s.Opt? || s.Vec?
  }

  /** `MIN_BYTE_LEN`. */
  function MinLen(s: Schema): nat
    decreases s, 1
  {
    FixedLen(s) + UnknownMin(s)
  }

  function UnknownMin(s: Schema): nat
    decreases s, 0
  {
    match s
    case Arr(item, count) => MinLen(item) * count
    case Struct(fields) => MinLenAll(fields)
    case Enum(variants) =>
      var known := KnownMin(variants);
      (if AllKnown(variants, true) then known else ConstMinMaxList([known] + MinOptions(variants), true))
        + VariantLen(|variants|)
    case _ => 0
  }

  function MinLenAll(fields: seq<Schema>): nat
    decreases fields, 0
  {
    if fields == [] then 0 else MinLen(fields[0]) + MinLenAll(fields[1..])
  }

  /** The bound of a variant is known without looking at other types. */
  predicate IsKnown(variant: Variant, smallest: bool) {
    forall f :: f in variant.fields ==> if smallest then !HasUnknownMin(f) else !HasUnknownMax(f)
  }

  predicate AllKnown(variants: seq<Variant>, smallest: bool) {
    forall v :: v in variants ==> IsKnown(v, smallest)
  }

  /** The least fixed length of the variants whose bound is known, or the largest `usize` if there are none. */
  function KnownMin(variants: seq<Variant>): nat {
    if variants == [] then USIZE_MAX
    else
      var rest := KnownMin(variants[1..]);
      if !IsKnown(variants[0], true) then rest
      else
        var len := FixedLenAll(variants[0].fields);
        if AnyKnown(variants[1..], true) && rest < len then rest else len
  }

  predicate AnyKnown(variants: seq<Variant>, smallest: bool) {
    exists v :: v in variants && IsKnown(v, smallest)
  }

  function MinOptions(variants: seq<Variant>): seq<nat>
    decreases variants, 0
  {
    if variants == [] then []
    else (if IsKnown(variants[0], true) then [] else [MinLenAll(variants[0].fields)]) + MinOptions(variants[1..])
  }

  /** `MAX_BYTE_LEN`. */
  function MaxLen(s: Schema): nat
    decreases s, 1
  {
    FixedLen(s) + UnknownMax(s)
  }

  function UnknownMax(s: Schema): nat
    decreases s, 0
  {
    match s
    case Str => MAX_STRING
    case Opt(inner) => MaxLen(inner)
    case Vec(item) => MAX_ITEMS * MaxLen(item)
    case Arr(item, count) => MaxLen(item) * count
    case Struct(fields) => MaxLenAll(fields)
    case Enum(variants) =>
      var known := KnownMax(variants);
      (if AllKnown(variants, false) then known else ConstMinMaxList([known] + MaxOptions(variants), false))
        + VariantLen(|variants|)
    case _ => 0
  }

  function MaxLenAll(fields: seq<Schema>): nat
    decreases fields, 0
  {
    if fields == [] then 0 else MaxLen(fields[0]) + MaxLenAll(fields[1..])
  }

  function KnownMax(variants: seq<Variant>): nat {
    if variants == [] then 0
    else
      var rest := KnownMax(variants[1..]);
      if !IsKnown(variants[0], false) then rest
      else
        var len := FixedLenAll(variants[0].fields);
        if rest < len then len else rest
  }

  function MaxOptions(variants: seq<Variant>): seq<nat>
    decreases variants, 0
  {
    if variants == [] then []
    else (if IsKnown(variants[0], false) then [] else [MaxLenAll(variants[0].fields)]) + MaxOptions(variants[1..])
  }

  // ---------------------------------------------------------------- the bounds hold

  /** Strings of at most 1020 bytes and vectors of at most 1000 items, at any depth. */
  predicate Bounded(s: Schema, v: Value)
    decreases v
  {
    match (s, v)
    case (Str, VStr(text)) => |text| <= MAX_STRING
    case (Opt(inner), VSome(value)) => Bounded(inner, value)
    case (Vec(item), VList(items)) => |items| <= MAX_ITEMS && AllBounded(item, items)
    case (Arr(item, _), VList(items)) => AllBounded(item, items)
    case (Struct(fields), VStruct(values)) => FieldsBounded(fields, values)
    case (Enum(variants), VEnum(tag, values)) => tag < |variants| ==> FieldsBounded(variants[tag].fields, values)
    case _ => true
  }

  predicate AllBounded(item: Schema, items: seq<Value>)
    decreases items
  {
    items == [] || (Bounded(item, items[0]) && AllBounded(item, items[1..]))
  }

  predicate FieldsBounded(fields: seq<Schema>, values: seq<Value>)
    decreases values
  {
    fields == [] || values == [] || (Bounded(fields[0], values[0]) && FieldsBounded(fields[1..], values[1..]))
  }

  /** The fields of a known variant have no unknown part. */
  lemma {:induction false} KnownFields(fields: seq<Schema>, smallest: bool)
    requires IsKnown(Variant(fields), smallest)
    ensures smallest ==> MinLenAll(fields) == FixedLenAll(fields)
    ensures !smallest ==> MaxLenAll(fields) == FixedLenAll(fields)
    decreases fields
  {
    if fields != [] {
      assert fields[0] in fields;
      assert IsKnown(Variant(fields[1..]), smallest);
      assert if smallest then UnknownMin(fields[0]) == 0 else UnknownMax(fields[0]) == 0;
      KnownFields(fields[1..], smallest);
    }
  }

  /** The computed minimum of an enum is at most the minimum of each variant. */
  lemma {:induction false} KnownMinBound(variants: seq<Variant>, i: nat)
    requires i < |variants| && IsKnown(variants[i], true)
    ensures KnownMin(variants) <= FixedLenAll(variants[i].fields)
  {
    if i > 0 {
      KnownMinBound(variants[1..], i - 1);
      assert variants[1..][i - 1] in variants[1..];
    }
  }

  lemma {:induction false} MinOptionOf(variants: seq<Variant>, i: nat)
    requires i < |variants| && !IsKnown(variants[i], true)
    ensures MinLenAll(variants[i].fields) in MinOptions(variants)
  {
    if i > 0 {
      MinOptionOf(variants[1..], i - 1);
    }
  }

  lemma EnumMinBound(variants: seq<Variant>, i: nat)
    requires i < |variants|
    ensures MinLen(Enum(variants)) <= MinLenAll(variants[i].fields) + VariantLen(|variants|)
  {
    var options := [KnownMin(variants)] + MinOptions(variants);
    ConstMinMaxIsExtreme(options, true);
    if IsKnown(variants[i], true) {
      KnownMinBound(variants, i);
      KnownFields(variants[i].fields, true);
      assert options[0] in options;
    } else {
      MinOptionOf(variants, i);
      assert variants[i] in variants && !AllKnown(variants, true);
      assert MinLenAll(variants[i].fields) in options;
    }
  }

  lemma {:induction false} KnownMaxBound(variants: seq<Variant>, i: nat)
    requires i < |variants| && IsKnown(variants[i], false)
    ensures KnownMax(variants) >= FixedLenAll(variants[i].fields)
  {
    if i > 0 {
      KnownMaxBound(variants[1..], i - 1);
    }
  }

  lemma {:induction false} MaxOptionOf(variants: seq<Variant>, i: nat)
    requires i < |variants| && !IsKnown(variants[i], false)
    ensures MaxLenAll(variants[i].fields) in MaxOptions(variants)
  {
    if i > 0 {
      MaxOptionOf(variants[1..], i - 1);
    }
  }

  lemma EnumMaxBound(variants: seq<Variant>, i: nat)
    requires i < |variants|
    ensures MaxLen(Enum(variants)) >= MaxLenAll(variants[i].fields) + VariantLen(|variants|)
  {
    var options := [KnownMax(variants)] + MaxOptions(variants);
    ConstMinMaxIsExtreme(options, false);
    if IsKnown(variants[i], false) {
      KnownMaxBound(variants, i);
      KnownFields(variants[i].fields, false);
      assert options[0] in options;
    } else {
      MaxOptionOf(variants, i);
      assert variants[i] in variants && !AllKnown(variants, false);
      assert MaxLenAll(variants[i].fields) in options;
    }
  }

  /** No value of the schema is shorter than `MIN_BYTE_LEN`. */
  lemma {:induction false} MinHolds(s: Schema, v: Value)
    requires Typed(s, v)
    ensures MinLen(s) <= ByteLen(s, v)
    decreases v, 1
  {
    match (s, v) {
      case (Arr(item, _), VList(items)) => AllMin(item, items);
      case (Struct(fields), VStruct(values)) => FieldsMin(fields, values);
      case (Enum(variants), VEnum(tag, values)) =>
        FieldsMin(variants[tag].fields, values);
        EnumMinBound(variants, tag);
      case _ =>
    }
  }

  lemma {:induction false} AllMin(item: Schema, items: seq<Value>)
    requires AllTyped(item, items)
    ensures MinLen(item) * |items| <= ByteLenAll(item, items)
    decreases items, 0
  {
    hide MinLen, ByteLen, Typed;
    if items != [] {
      MinHolds(item, items[0]);
      AllMin(item, items[1..]);
      OneMore(MinLen(item), |items|);
    }
  }

  lemma OneMore(each: nat, n: nat)
    requires n > 0
    ensures each * n == each + each * (n - 1)
  {
  }

  lemma {:induction false} FieldsMin(fields: seq<Schema>, values: seq<Value>)
    requires FieldsTyped(fields, values)
    ensures MinLenAll(fields) <= FixedLenAll(fields) + TailLenAll(fields, values)
    decreases values, 0
  {
    if fields != [] {
      MinHolds(fields[0], values[0]);
      FieldsMin(fields[1..], values[1..]);
    }
  }

  /** No value within the limits of strings and vectors is longer than `MAX_BYTE_LEN`. */
  lemma {:induction false} MaxHolds(s: Schema, v: Value)
    requires Typed(s, v) && Bounded(s, v)
    ensures ByteLen(s, v) <= MaxLen(s)
    decreases v, 1
  {
    match (s, v) {
      case (Opt(inner), VSome(value)) => MaxHolds(inner, value);
      case (Vec(item), VList(items)) =>
        AllMax(item, items);
        MoreItems(MaxLen(item), |items|, MAX_ITEMS);
      case (Arr(item, _), VList(items)) => AllMax(item, items);
      case (Struct(fields), VStruct(values)) => FieldsMax(fields, values);
      case (Enum(variants), VEnum(tag, values)) =>
        FieldsMax(variants[tag].fields, values);
        EnumMaxBound(variants, tag);
      case _ =>
    }
  }

  lemma MoreItems(each: nat, n: nat, limit: nat)
    requires n <= limit
    ensures each * n <= limit * each
  {
  }

  lemma {:induction false} AllMax(item: Schema, items: seq<Value>)
    requires AllTyped(item, items) && AllBounded(item, items)
    ensures ByteLenAll(item, items) <= MaxLen(item) * |items|
    decreases items, 0
  {
    hide MaxLen, ByteLen, Typed, Bounded;
    if items != [] {
      MaxHolds(item, items[0]);
      AllMax(item, items[1..]);
      OneMore(MaxLen(item), |items|);
    }
  }

  lemma {:induction false} FieldsMax(fields: seq<Schema>, values: seq<Value>)
    requires FieldsTyped(fields, values) && FieldsBounded(fields, values)
    ensures FixedLenAll(fields) + TailLenAll(fields, values) <= MaxLenAll(fields)
    decreases values, 0
  {
    if fields != [] {
      MaxHolds(fields[0], values[0]);
      FieldsMax(fields[1..], values[1..]);
    }
  }

  // ---------------------------------------------------------------- types without bytes

  /** A type whose minimum is zero has no byte at all in any value. */
  lemma {:induction false} ZeroMinMeansNoBytes(s: Schema, v: Value)
    requires WellFormed(s) && Typed(s, v) && MinLen(s) == 0
    ensures ByteLen(s, v) == 0
    decreases v, 3
  {
    hide UnknownMin, TailLen, Typed, WellFormed, FixedLen;
    NoTailBytes(s, v);
  }

  lemma {:induction false} NoTailBytes(s: Schema, v: Value)
    requires WellFormed(s) && Typed(s, v) && FixedLen(s) == 0 && UnknownMin(s) == 0
    ensures TailLen(s, v) == 0
    decreases v, 2
  {
    hide ConstMinMaxList, KnownMin, MinOptions, AllKnown;
    match (s, v) {
      case (Arr(item, count), VList(items)) =>
        assert s == Arr(item, |items|);
        NoArrayBytes(item, items);
      case (Struct(fields), VStruct(values)) => NoFieldBytes(fields, values);
      case (Enum(variants), VEnum(tag, values)) => NoVariantBytes(variants, tag, values);
      case _ =>
    }
  }

  lemma {:induction false} NoArrayBytes(item: Schema, items: seq<Value>)
    requires WellFormed(item) && AllTyped(item, items) && MinLen(item) * |items| == 0
    ensures ByteLenAll(item, items) == 0
    decreases items, 1
  {
    if items != [] {
      ZeroFactor(MinLen(item), |items|);
      NoItemBytes(item, items);
    }
  }

  lemma {:induction false} NoVariantBytes(variants: seq<Variant>, tag: nat, values: seq<Value>)
    requires WellFormed(Enum(variants)) && Typed(Enum(variants), VEnum(tag, values)) && UnknownMin(Enum(variants)) == 0
    ensures TailLen(Enum(variants), VEnum(tag, values)) == 0
    decreases values, 2
  {
    VariantLenIs(|variants|);
    assert variants == [variants[0]];
    SingleVariantMin(variants[0]);
    NoFieldBytes(variants[0].fields, values);
  }

  lemma ZeroFactor(a: nat, b: nat)
    requires a * b == 0 && b > 0
    ensures a == 0
  {
  }

  lemma SingleVariantMin(variant: Variant)
    ensures MinLen(Enum([variant])) == 0 ==> MinLenAll(variant.fields) == 0
  {
    var options := [KnownMin([variant])] + MinOptions([variant]);
    ConstMinMaxIsExtreme(options, true);
    assert [variant][1..] == [];
    if IsKnown(variant, true) {
      KnownFields(variant.fields, true);
      assert AllKnown([variant], true) && !AnyKnown([], true);
      assert KnownMin([variant]) == FixedLenAll(variant.fields);
      assert MinLen(Enum([variant])) >= KnownMin([variant]);
    } else {
      assert [variant][0] == variant && variant in [variant];
      assert MinOptions([variant]) == [MinLenAll(variant.fields)] + MinOptions([]);
      assert KnownMin([variant]) == KnownMin([]);
      assert options == [USIZE_MAX, MinLenAll(variant.fields)];
      assert !AllKnown([variant], true);
      assert MinLen(Enum([variant])) >= ConstMinMaxList(options, true);
    }
  }

  lemma {:induction false} NoItemBytes(item: Schema, items: seq<Value>)
    requires WellFormed(item) && AllTyped(item, items) && MinLen(item) == 0
    ensures ByteLenAll(item, items) == 0
    decreases items, 0
  {
    hide MinLen, ByteLen, Typed, WellFormed;
    if items != [] {
      ZeroMinMeansNoBytes(item, items[0]);
      NoItemBytes(item, items[1..]);
    }
  }

  lemma {:induction false} NoFieldBytes(fields: seq<Schema>, values: seq<Value>)
    requires AllWellFormed(fields) && FieldsTyped(fields, values) && MinLenAll(fields) == 0
    ensures FixedLenAll(fields) == 0 && TailLenAll(fields, values) == 0
    decreases values, 0
  {
    if fields != [] {
      ZeroMinMeansNoBytes(fields[0], values[0]);
      NoFieldBytes(fields[1..], values[1..]);
    }
  }
}

/** The compile-time bounds are exact: some value is as short as the least, some as long as the greatest. */
module Extremes {
  import opened Schemas
  import opened Encoding
  import opened Lengths

  // ---------------------------------------------------------------- lists of one value

  /** `n` times the same value. */
  function Copies(v: Value, n: nat): seq<Value> {
    if n == 0 then [] else [v] + Copies(v, n - 1)
  }

  lemma {:induction false} CopiesAre(item: Schema, v: Value, n: nat)
    requires Typed(item, v)
    ensures |Copies(v, n)| == n && AllTyped(item, Copies(v, n))
    ensures ByteLenAll(item, Copies(v, n)) == ByteLen(item, v) * n
    ensures Bounded(item, v) ==> AllBounded(item, Copies(v, n))
  {
    hide Typed, ByteLen, Bounded;
    if n > 0 {
      CopiesAre(item, v, n - 1);
      assert Copies(v, n)[1..] == Copies(v, n - 1);
      OneMore(ByteLen(item, v), n);
    }
  }

  // ---------------------------------------------------------------- the variant of a bound

  lemma {:induction false} KnownMinIs(variants: seq<Variant>) returns (i: nat)
    requires KnownMin(variants) < USIZE_MAX
    ensures i < |variants| && IsKnown(variants[i], true) && KnownMin(variants) == FixedLenAll(variants[i].fields)
  {
    i := 0;
    if !IsKnown(variants[0], true) || (AnyKnown(variants[1..], true) && KnownMin(variants[1..]) < FixedLenAll(variants[0].fields)) {
      var j := KnownMinIs(variants[1..]);
      i := j + 1;
    }
  }

  lemma {:induction false} MinOptionIs(variants: seq<Variant>, len: nat) returns (i: nat)
    requires len in MinOptions(variants)
    ensures i < |variants| && len == MinLenAll(variants[i].fields)
  {
    i := 0;
    if IsKnown(variants[0], true) || len != MinLenAll(variants[0].fields) {
      assert len in MinOptions(variants[1..]);
      var j := MinOptionIs(variants[1..], len);
      i := j + 1;
    }
  }

  /** The least variant of an enum. */
  lemma LeastVariant(variants: seq<Variant>) returns (i: nat)
    requires variants != [] && MinLen(Enum(variants)) < USIZE_MAX
    ensures i < |variants| && MinLen(Enum(variants)) == MinLenAll(variants[i].fields) + VariantLen(|variants|)
  {
    hide KnownMin, MinOptions, ConstMinMaxList, VariantLen, FixedLenAll, MinLenAll, IsKnown;
    var options := [KnownMin(variants)] + MinOptions(variants);
    ConstMinMaxIsExtreme(options, true);
    var least := if AllKnown(variants, true) then KnownMin(variants) else ConstMinMaxList(options, true);
    assert MinLen(Enum(variants)) == least + VariantLen(|variants|);
    if least == KnownMin(variants) {
      i := KnownMinIs(variants);
      KnownFields(variants[i].fields, true);
    } else {
      i := MinOptionIs(variants, least);
    }
  }

  lemma {:induction false} KnownMaxIs(variants: seq<Variant>) returns (i: nat)
    requires KnownMax(variants) > 0
    ensures i < |variants| && IsKnown(variants[i], false) && KnownMax(variants) == FixedLenAll(variants[i].fields)
  {
    i := 0;
    if !IsKnown(variants[0], false) || KnownMax(variants[1..]) >= FixedLenAll(variants[0].fields) {
      var j := KnownMaxIs(variants[1..]);
      i := j + 1;
    }
  }

  lemma {:induction false} MaxOptionIs(variants: seq<Variant>, len: nat) returns (i: nat)
    requires len in MaxOptions(variants)
    ensures i < |variants| && len == MaxLenAll(variants[i].fields)
  {
    i := 0;
    if IsKnown(variants[0], false) || len != MaxLenAll(variants[0].fields) {
      assert len in MaxOptions(variants[1..]);
      var j := MaxOptionIs(variants[1..], len);
      i := j + 1;
    }
  }

  /** The greatest variant of an enum. */
  lemma GreatestVariant(variants: seq<Variant>) returns (i: nat)
    requires variants != []
    ensures i < |variants| && MaxLen(Enum(variants)) == MaxLenAll(variants[i].fields) + VariantLen(|variants|)
  {
    hide KnownMax, MaxOptions, ConstMinMaxList, VariantLen, FixedLenAll, MaxLenAll, IsKnown;
    var options := [KnownMax(variants)] + MaxOptions(variants);
    ConstMinMaxIsExtreme(options, false);
    var greatest := if AllKnown(variants, false) then KnownMax(variants) else ConstMinMaxList(options, false);
    assert MaxLen(Enum(variants)) == greatest + VariantLen(|variants|);
    if greatest == 0 {
      i := 0;
      EnumMaxBound(variants, 0);
    } else if greatest == KnownMax(variants) {
      i := KnownMaxIs(variants);
      KnownFields(variants[i].fields, false);
    } else {
      i := MaxOptionIs(variants, greatest);
    }
  }

  // ---------------------------------------------------------------- shortest values

  /** Some value has exactly `MIN_BYTE_LEN` bytes, unless that is the largest `usize` or more. */
  lemma {:induction false} MinAttained(s: Schema) returns (v: Value)
    requires WellFormed(s) && MinLen(s) < USIZE_MAX
    ensures Typed(s, v) && ByteLen(s, v) == MinLen(s)
    decreases s, 1
  {
    hide MinLen, Typed, ByteLen, WellFormed;
    match s {
      case Arr(item, count) =>
        WellFormedItem(item, count);
        v := ShortestArray(item, count);
      case Struct(fields) => v := ShortestStruct(fields);
      case Enum(variants) => v := ShortestVariant(variants);
      case _ => v := ShortestPlain(s);
    }
  }

  lemma WellFormedItem(item: Schema, count: nat)
    requires WellFormed(Arr(item, count))
    ensures WellFormed(item)
  {
  }

  lemma ShortestPlain(s: Schema) returns (v: Value)
    requires !s.Arr? && !s.Struct? && !s.Enum?
    ensures Typed(s, v) && ByteLen(s, v) == MinLen(s)
  {
    match s {
      case Unit => v := VUnit;
      case Bool => v := VBool(false);
      case Scalar(width) =>
        v := VScalar(0);
        PositivePower(width);
      case Str => v := VStr([]);
      case Opt(_) => v := VNone;
      case Vec(_) => v := VList([]);
    }
  }

  lemma {:induction false} ShortestArray(item: Schema, count: nat) returns (v: Value)
    requires WellFormed(item) && MinLen(Arr(item, count)) < USIZE_MAX
    ensures Typed(Arr(item, count), v) && ByteLen(Arr(item, count), v) == MinLen(Arr(item, count))
    decreases item, 2
  {
    hide MinLen, WellFormed, Typed, ByteLen;
    ArrMin(item, count);
    if count == 0 {
      v := VList([]);
      NoItems(item);
    } else {
      FactorBelow(MinLen(item), count);
      var least := MinAttained(item);
      v := VList(Copies(least, count));
      FilledArray(item, least, count);
    }
  }

  lemma NoItems(item: Schema)
    ensures Typed(Arr(item, 0), VList([])) && ByteLen(Arr(item, 0), VList([])) == 0
  {
  }

  lemma FilledArray(item: Schema, v: Value, count: nat)
    requires Typed(item, v)
    ensures Typed(Arr(item, count), VList(Copies(v, count)))
    ensures ByteLen(Arr(item, count), VList(Copies(v, count))) == ByteLen(item, v) * count
    ensures Bounded(item, v) ==> Bounded(Arr(item, count), VList(Copies(v, count)))
  {
    CopiesAre(item, v, count);
  }

  lemma {:induction false} ShortestStruct(fields: seq<Schema>) returns (v: Value)
    requires WellFormed(Struct(fields)) && MinLen(Struct(fields)) < USIZE_MAX
    ensures Typed(Struct(fields), v) && ByteLen(Struct(fields), v) == MinLen(Struct(fields))
    decreases fields, 1
  {
    hide FieldsTyped, MinLenAll;
    var values := ShortestFields(fields);
    v := VStruct(values);
  }

  lemma {:induction false} PositivePower(n: nat)
    ensures Pow256(n) > 0
  {
    if n > 0 {
      PositivePower(n - 1);
    }
  }

  lemma ArrMin(item: Schema, count: nat)
    ensures MinLen(Arr(item, count)) == MinLen(item) * count
  {
  }

  lemma FactorBelow(len: nat, count: nat)
    requires count > 0
    ensures len <= len * count
  {
  }

  lemma {:induction false} ShortestFields(fields: seq<Schema>) returns (values: seq<Value>)
    requires AllWellFormed(fields) && MinLenAll(fields) < USIZE_MAX
    ensures FieldsTyped(fields, values) && FixedLenAll(fields) + TailLenAll(fields, values) == MinLenAll(fields)
    decreases fields, 0
  {
    hide MinLen, WellFormed, Typed, TailLen;
    values := [];
    if fields != [] {
      var v := MinAttained(fields[0]);
      var rest := ShortestFields(fields[1..]);
      values := [v] + rest;
    }
  }

  lemma {:induction false} ShortestVariant(variants: seq<Variant>) returns (v: Value)
    requires WellFormed(Enum(variants)) && MinLen(Enum(variants)) < USIZE_MAX
    ensures Typed(Enum(variants), v) && ByteLen(Enum(variants), v) == MinLen(Enum(variants))
    decreases variants, 1
  {
    hide MinLen, VariantLen, FieldsTyped;
    var i := LeastVariant(variants);
    var values := ShortestFields(variants[i].fields);
    v := VEnum(i, values);
  }

  // ---------------------------------------------------------------- longest values

  /** Some value within the limits of strings and vectors has exactly `MAX_BYTE_LEN` bytes. */
  lemma {:induction false} MaxAttained(s: Schema) returns (v: Value)
    requires WellFormed(s)
    ensures Typed(s, v) && Bounded(s, v) && ByteLen(s, v) == MaxLen(s)
    decreases s, 1
  {
    match s {
      case Unit => v := VUnit;
      case Bool => v := VBool(false);
      case Scalar(width) =>
        v := VScalar(0);
        PositivePower(width);
      case Str => v := VStr(seq(MAX_STRING, _ => 0));
      case Opt(inner) =>
        var longest := MaxAttained(inner);
        v := VSome(longest);
      case Vec(item) => v := LongestList(item);
      case Arr(item, count) => v := LongestArray(item, count);
      case Struct(fields) =>
        var values := LongestFields(fields);
        v := VStruct(values);
      case Enum(variants) => v := LongestVariant(variants);
    }
  }

  lemma {:induction false} LongestList(item: Schema) returns (v: Value)
    requires WellFormed(item)
    ensures Typed(Vec(item), v) && Bounded(Vec(item), v) && ByteLen(Vec(item), v) == MaxLen(Vec(item))
    decreases item, 2
  {
    hide WellFormed, KnownMin, KnownMax;
    var longest := MaxAttained(item);
    CopiesAre(item, longest, MAX_ITEMS);
    v := VList(Copies(longest, MAX_ITEMS));
    assert ByteLen(Vec(item), v) == 4 + MaxLen(item) * MAX_ITEMS;
  }

  lemma {:induction false} LongestArray(item: Schema, count: nat) returns (v: Value)
    requires WellFormed(item)
    ensures Typed(Arr(item, count), v) && Bounded(Arr(item, count), v) && ByteLen(Arr(item, count), v) == MaxLen(Arr(item, count))
    decreases item, 2
  {
    hide WellFormed, Typed, Bounded, ByteLen, MaxLen;
    var longest := MaxAttained(item);
    v := VList(Copies(longest, count));
    FilledArray(item, longest, count);
    ArrMax(item, count);
  }

  lemma ArrMax(item: Schema, count: nat)
    ensures MaxLen(Arr(item, count)) == MaxLen(item) * count
  {
  }

  lemma {:induction false} LongestFields(fields: seq<Schema>) returns (values: seq<Value>)
    requires AllWellFormed(fields)
    ensures FieldsTyped(fields, values) && FieldsBounded(fields, values)
    ensures FixedLenAll(fields) + TailLenAll(fields, values) == MaxLenAll(fields)
    decreases fields, 0
  {
    hide MaxLen, WellFormed, Typed, TailLen, Bounded;
    values := [];
    if fields != [] {
      var v := MaxAttained(fields[0]);
      var rest := LongestFields(fields[1..]);
      values := [v] + rest;
    }
  }

  lemma {:induction false} LongestVariant(variants: seq<Variant>) returns (v: Value)
    requires WellFormed(Enum(variants))
    ensures Typed(Enum(variants), v) && Bounded(Enum(variants), v) && ByteLen(Enum(variants), v) == MaxLen(Enum(variants))
    decreases variants, 1
  {
    hide MaxLen, VariantLen, FieldsTyped, FieldsBounded;
    var i := GreatestVariant(variants);
    var values := LongestFields(variants[i].fields);
    v := VEnum(i, values);
  }
}

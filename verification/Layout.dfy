/**
 * What the bytes of a value are, said without the functions that compute them: digits, flags, tags and
 * lengths, and where they stand. Exactly one sequence of bytes has this layout.
 */
module Layout {
  import opened Packets
  import opened Schemas
  import opened Encoding
  import RingSlots

  /** The bytes are the digits of `n` to the base 256, the least significant first. */
  ghost predicate Digits(bytes: seq<u8>, n: nat) {
    forall i :: 0 <= i < |bytes| ==> Pow256(i) > 0 && bytes[i] == n / Pow256(i) % 256
  }

  /** The part in front: a flag, the digits of a number, or those of a length. */
  ghost predicate IsFixed(s: Schema, v: Value, bytes: seq<u8>) {
    match (s, v)
    case (Bool, VBool(b)) => bytes == if b then [1] else [0]
    case (Scalar(width), VScalar(bits)) => |bytes| == width && Digits(bytes, bits)
    case (Str, VStr(text)) => |bytes| == 4 && Digits(bytes, |text|)
    case (Opt(_), VNone) => bytes == [0]
    case (Opt(_), VSome(_)) => bytes == [1]
    case (Vec(_), VList(items)) => |bytes| == 4 && Digits(bytes, |items|)
    case _ => bytes == []
  }

  /** The part behind: text, a present value, items one after the other, or the fields of a type of its own. */
  ghost predicate IsTail(s: Schema, v: Value, bytes: seq<u8>)
    decreases v, 1
  {
    match (s, v)
    case (Str, VStr(text)) => bytes == text
    case (Opt(inner), VSome(value)) => IsEncoding(inner, value, bytes)
    case (Vec(item), VList(items)) => AreItems(item, items, bytes)
    case (Arr(item, _), VList(items)) => AreItems(item, items, bytes)
    case (Struct(fields), VStruct(values)) => AreFields(fields, values, bytes)
    case (Enum(variants), VEnum(tag, values)) =>
      && tag < |variants|
      && if |variants| == 1 then AreFields(variants[tag].fields, values, bytes)
         else bytes != [] && bytes[0] == tag && AreFields(variants[tag].fields, values, bytes[1..])
    case _ => bytes == []
  }

  ghost predicate IsEncoding(s: Schema, v: Value, bytes: seq<u8>)
    decreases v, 2
  {
    exists k :: 0 <= k <= |bytes| && IsFixed(s, v, bytes[..k]) && IsTail(s, v, bytes[k..])
  }

  ghost predicate AreItems(item: Schema, items: seq<Value>, bytes: seq<u8>)
    decreases items, 0
  {
    if items == [] then bytes == []
    else exists k :: 0 <= k <= |bytes| && IsEncoding(item, items[0], bytes[..k]) && AreItems(item, items[1..], bytes[k..])
  }

  /** First the front parts of all fields, in order, then their parts behind, in the same order. */
  ghost predicate AreFields(fields: seq<Schema>, values: seq<Value>, bytes: seq<u8>)
    decreases values, 1
  {
    exists k :: 0 <= k <= |bytes| && AreFixed(fields, values, bytes[..k]) && AreTails(fields, values, bytes[k..])
  }

  ghost predicate AreFixed(fields: seq<Schema>, values: seq<Value>, bytes: seq<u8>) {
    if fields == [] || values == [] then bytes == []
    else exists k :: 0 <= k <= |bytes| && IsFixed(fields[0], values[0], bytes[..k]) && AreFixed(fields[1..], values[1..], bytes[k..])
  }

  ghost predicate AreTails(fields: seq<Schema>, values: seq<Value>, bytes: seq<u8>)
    decreases values, 0
  {
    if fields == [] || values == [] then bytes == []
    else exists k :: 0 <= k <= |bytes| && IsTail(fields[0], values[0], bytes[..k]) && AreTails(fields[1..], values[1..], bytes[k..])
  }

  // ---------------------------------------------------------------- digits

  lemma DivideTwice(n: nat, b: nat)
    requires b > 0
    ensures n / (256 * b) == n / 256 / b
  {
    var q, r1, r2 := n / 256 / b, n % 256, n / 256 % b;
    assert n / 256 == b * q + r2;
    Distribute(b, q);
    QuotientIs(n, 256 * b, q, 256 * r2 + r1);
  }

  lemma Distribute(b: nat, q: nat)
    ensures 256 * (b * q) == (256 * b) * q
  {
  }

  lemma QuotientIs(n: nat, d: nat, q: nat, r: nat)
    requires d > 0 && r < d && n == d * q + r
    ensures n / d == q
  {
    assert n == d * (n / d) + n % d;
    Subtract(d, q, n / d);
    RingSlots.MultipleBelow(d, q - n / d);
  }

  lemma Subtract(d: nat, x: nat, y: nat)
    ensures d * (x - y) == d * x - d * y
  {
  }

  lemma {:induction false} PowerPositive(n: nat)
    ensures Pow256(n) > 0
  {
    if n > 0 {
      PowerPositive(n - 1);
    }
  }

  /** Byte `i` of the little-endian form is digit `i`. */
  lemma {:induction false} LeDigit(width: nat, n: nat, i: nat)
    requires i < width
    ensures Pow256(i) > 0 && Le(width, n)[i] == n / Pow256(i) % 256
  {
    PowerPositive(i);
    if i > 0 {
      LeDigit(width - 1, n / 256, i - 1);
      DivideTwice(n, Pow256(i - 1));
    }
  }

  lemma LeIsDigits(width: nat, n: nat, bytes: seq<u8>)
    ensures |bytes| == width && Digits(bytes, n) <==> bytes == Le(width, n)
  {
    forall i | 0 <= i < width ensures Pow256(i) > 0 && Le(width, n)[i] == n / Pow256(i) % 256 {
      LeDigit(width, n, i);
    }
  }

  // ---------------------------------------------------------------- there is one layout

  lemma FixedIs(s: Schema, v: Value, bytes: seq<u8>)
    requires Typed(s, v)
    ensures IsFixed(s, v, bytes) <==> bytes == Fixed(s, v)
  {
    hide Digits, Le;
    match (s, v) {
      case (Scalar(width), VScalar(bits)) => LeIsDigits(width, bits, bytes);
      case (Str, VStr(text)) => LeIsDigits(4, |text|, bytes);
      case (Vec(_), VList(items)) => LeIsDigits(4, |items|, bytes);
      case _ =>
    }
  }

  lemma {:induction false} TailIs(s: Schema, v: Value, bytes: seq<u8>)
    requires WellFormed(s) && Typed(s, v)
    ensures IsTail(s, v, bytes) <==> bytes == Tail(s, v)
    decreases v, 1
  {
    hide AreFields, AreItems, IsEncoding, Encode, EncodeAll, FixedAll, TailAll, AllTyped, FieldsTyped;
    match (s, v) {
      case (Opt(inner), VSome(value)) => EncodingIs(inner, value, bytes);
      case (Vec(item), VList(items)) => ItemsAre(item, items, bytes);
      case (Arr(item, _), VList(items)) => ItemsAre(item, items, bytes);
      case (Struct(fields), VStruct(values)) => FieldsAre(fields, values, bytes);
      case (Enum(variants), VEnum(tag, values)) => VariantIs(variants, tag, values, bytes);
      case _ =>
    }
  }

  lemma {:induction false} VariantIs(variants: seq<Variant>, tag: nat, values: seq<Value>, bytes: seq<u8>)
    requires WellFormed(Enum(variants)) && tag < |variants| && FieldsTyped(variants[tag].fields, values)
    ensures IsTail(Enum(variants), VEnum(tag, values), bytes) <==> bytes == Tail(Enum(variants), VEnum(tag, values))
    decreases values, 2
  {
    hide AreFields, FixedAll, TailAll, FieldsTyped, IsTail, Tail;
    var fields := variants[tag].fields;
    EnumTail(variants, tag, values, bytes);
    if |variants| == 1 {
      FieldsAre(fields, values, bytes);
    } else if bytes != [] {
      FieldsAre(fields, values, bytes[1..]);
      HeadAndRest(bytes, tag, FixedAll(fields, values) + TailAll(fields, values));
    }
  }

  /** Both sides of the equivalence, unfolded. */
  lemma EnumTail(variants: seq<Variant>, tag: nat, values: seq<Value>, bytes: seq<u8>)
    requires tag < |variants| <= 256
    ensures var fields := variants[tag].fields;
      && (IsTail(Enum(variants), VEnum(tag, values), bytes) <==>
            if |variants| == 1 then AreFields(fields, values, bytes)
            else bytes != [] && bytes[0] == tag && AreFields(fields, values, bytes[1..]))
      && Tail(Enum(variants), VEnum(tag, values))
         == (if |variants| == 1 then [] else [tag]) + (FixedAll(fields, values) + TailAll(fields, values))
  {
    hide AreFields, FixedAll, TailAll;
  }

  lemma HeadAndRest(bytes: seq<u8>, tag: u8, body: seq<u8>)
    requires bytes != []
    ensures bytes == [tag] + body <==> bytes[0] == tag && bytes[1..] == body
  {
    assert bytes == [bytes[0]] + bytes[1..];
    assert ([tag] + body)[1..] == body;
  }

  /** A value has exactly one layout, and `Encode` is it. */
  lemma {:induction false} EncodingIs(s: Schema, v: Value, bytes: seq<u8>)
    requires WellFormed(s) && Typed(s, v)
    ensures IsEncoding(s, v, bytes) <==> bytes == Encode(s, v)
    decreases v, 2
  {
    hide IsFixed, IsTail, Fixed, Tail, Typed, WellFormed;
    if bytes == Encode(s, v) {
      var k := |Fixed(s, v)|;
      assert bytes[..k] == Fixed(s, v) && bytes[k..] == Tail(s, v);
      FixedIs(s, v, bytes[..k]);
      TailIs(s, v, bytes[k..]);
    }
    if k :| 0 <= k <= |bytes| && IsFixed(s, v, bytes[..k]) && IsTail(s, v, bytes[k..]) {
      FixedIs(s, v, bytes[..k]);
      TailIs(s, v, bytes[k..]);
      assert bytes == bytes[..k] + bytes[k..];
    }
  }

  lemma {:induction false} ItemsAre(item: Schema, items: seq<Value>, bytes: seq<u8>)
    requires WellFormed(item) && AllTyped(item, items)
    ensures AreItems(item, items, bytes) <==> bytes == EncodeAll(item, items)
    decreases items, 0
  {
    hide IsEncoding, Encode, Typed, WellFormed;
    if items != [] {
      if bytes == EncodeAll(item, items) {
        var k := |Encode(item, items[0])|;
        assert bytes[..k] == Encode(item, items[0]) && bytes[k..] == EncodeAll(item, items[1..]);
        EncodingIs(item, items[0], bytes[..k]);
        ItemsAre(item, items[1..], bytes[k..]);
      }
      if k :| 0 <= k <= |bytes| && IsEncoding(item, items[0], bytes[..k]) && AreItems(item, items[1..], bytes[k..]) {
        EncodingIs(item, items[0], bytes[..k]);
        ItemsAre(item, items[1..], bytes[k..]);
        assert bytes == bytes[..k] + bytes[k..];
      }
    }
  }

  lemma {:induction false} FieldsAre(fields: seq<Schema>, values: seq<Value>, bytes: seq<u8>)
    requires AllWellFormed(fields) && FieldsTyped(fields, values)
    ensures AreFields(fields, values, bytes) <==> bytes == FixedAll(fields, values) + TailAll(fields, values)
    decreases values, 1
  {
    hide AreFixed, AreTails, FixedAll, TailAll, FieldsTyped, AllWellFormed;
    if bytes == FixedAll(fields, values) + TailAll(fields, values) {
      var k := |FixedAll(fields, values)|;
      assert bytes[..k] == FixedAll(fields, values) && bytes[k..] == TailAll(fields, values);
      FrontIs(fields, values, bytes[..k]);
      BackIs(fields, values, bytes[k..]);
    }
    if k :| 0 <= k <= |bytes| && AreFixed(fields, values, bytes[..k]) && AreTails(fields, values, bytes[k..]) {
      FrontIs(fields, values, bytes[..k]);
      BackIs(fields, values, bytes[k..]);
      assert bytes == bytes[..k] + bytes[k..];
    }
  }

  lemma {:induction false} FrontIs(fields: seq<Schema>, values: seq<Value>, bytes: seq<u8>)
    requires FieldsTyped(fields, values)
    ensures AreFixed(fields, values, bytes) <==> bytes == FixedAll(fields, values)
    decreases values, 0
  {
    hide IsFixed, Fixed, Typed;
    if fields != [] {
      if bytes == FixedAll(fields, values) {
        var k := |Fixed(fields[0], values[0])|;
        assert bytes[..k] == Fixed(fields[0], values[0]) && bytes[k..] == FixedAll(fields[1..], values[1..]);
        FixedIs(fields[0], values[0], bytes[..k]);
        FrontIs(fields[1..], values[1..], bytes[k..]);
      }
      if k :| 0 <= k <= |bytes| && IsFixed(fields[0], values[0], bytes[..k]) && AreFixed(fields[1..], values[1..], bytes[k..]) {
        FixedIs(fields[0], values[0], bytes[..k]);
        FrontIs(fields[1..], values[1..], bytes[k..]);
        assert bytes == bytes[..k] + bytes[k..];
      }
    }
  }

  lemma {:induction false} BackIs(fields: seq<Schema>, values: seq<Value>, bytes: seq<u8>)
    requires AllWellFormed(fields) && FieldsTyped(fields, values)
    ensures AreTails(fields, values, bytes) <==> bytes == TailAll(fields, values)
    decreases values, 0
  {
    hide IsTail, Tail, Typed, WellFormed;
    if fields != [] {
      if bytes == TailAll(fields, values) {
        var k := |Tail(fields[0], values[0])|;
        assert bytes[..k] == Tail(fields[0], values[0]) && bytes[k..] == TailAll(fields[1..], values[1..]);
        TailIs(fields[0], values[0], bytes[..k]);
        BackIs(fields[1..], values[1..], bytes[k..]);
      }
      if k :| 0 <= k <= |bytes| && IsTail(fields[0], values[0], bytes[..k]) && AreTails(fields[1..], values[1..], bytes[k..]) {
        TailIs(fields[0], values[0], bytes[..k]);
        BackIs(fields[1..], values[1..], bytes[k..]);
        assert bytes == bytes[..k] + bytes[k..];
      }
    }
  }
}

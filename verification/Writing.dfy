/**
 * The generated writers, on a buffer: fixed parts go to offsets known from the schema, variable parts
 * follow a pointer. A slice `bytes[ptr..]` of the buffer is passed as the buffer with a later start.
 */
module Writing {
  import opened Packets
  import opened Schemas
  import opened Encoding

  /** How a writer ends: `Panicked` is a slice that starts beyond the end of the buffer. */
  datatype Outcome = Done | TooShort | Panicked

  /** The buffer after `piece` has been written at `pos`. */
  function Patch(buffer: seq<u8>, pos: nat, piece: seq<u8>): (r: seq<u8>)
    ensures |r| == |buffer|
  {
    if piece == [] || pos + |piece| > |buffer| then buffer
    else buffer[..pos] + piece + buffer[pos + |piece|..]
  }

  lemma PatchNothing(buffer: seq<u8>)
    ensures Patch(buffer, 0, []) == buffer
  {
  }

  lemma PatchTwice(buffer: seq<u8>, pos: nat, left: seq<u8>, right: seq<u8>)
    requires pos + |left| + |right| <= |buffer|
    ensures Patch(Patch(buffer, pos, left), pos + |left|, right) == Patch(buffer, pos, left + right)
  {
  }

  lemma PatchBefore(buffer: seq<u8>, pos: nat, left: seq<u8>, right: seq<u8>)
    requires pos + |left| + |right| <= |buffer|
    ensures Patch(Patch(buffer, pos + |left|, right), pos, left) == Patch(buffer, pos, left + right)
  {
    if left == [] || right == [] {
      assert left + right == if left == [] then right else left;
    } else {
      var first := Patch(buffer, pos + |left|, right);
      assert first[..pos] == buffer[..pos];
      assert first[pos + |left|..] == right + buffer[pos + |left| + |right|..];
    }
  }

  /** A patch holds its bytes and leaves everything else as it was. */
  lemma PatchHolds(buffer: seq<u8>, pos: nat, piece: seq<u8>)
    requires pos + |piece| <= |buffer|
    ensures var after := Patch(buffer, pos, piece);
      && after[pos..pos + |piece|] == piece
      && after[..pos] == buffer[..pos]
      && after[pos + |piece|..] == buffer[pos + |piece|..]
  {
  }

  method CopyInto(bytes: array<u8>, pos: nat, piece: seq<u8>)
    requires pos + |piece| <= bytes.Length
    modifies bytes
    ensures bytes[..] == Patch(old(bytes[..]), pos, piece)
  {
    for i := 0 to |piece|
      invariant forall j :: 0 <= j < i ==> bytes[pos + j] == piece[j]
      invariant forall j :: 0 <= j < bytes.Length && !(pos <= j < pos + i) ==> bytes[j] == old(bytes[j])
    {
      bytes[pos + i] := piece[i];
    }
    assert forall j :: pos <= j < pos + |piece| ==> bytes[j] == piece[j - pos];
  }

  /**
   * `piece` has been written at `pos` if it fits; if it does not fit, the writer says so. Nothing
   * before `start`, the beginning of the writer's slice, is touched in any case.
   */
  ghost predicate Written(r: Outcome, before: seq<u8>, after: seq<u8>, start: nat, pos: nat, piece: seq<u8>) {
    && |after| == |before| && start <= |before|
    && after[..start] == before[..start]
    && (pos + |piece| <= |before| ==> r == Done && after == Patch(before, pos, piece))
    && (pos <= |before| < pos + |piece| ==> r != Done)
  }

  /** Two writers in a row; the second one does not run if the first one failed. */
  lemma Sequence(first: Outcome, r: Outcome, before: seq<u8>, middle: seq<u8>, after: seq<u8>,
                 start: nat, pos: nat, left: seq<u8>, right: seq<u8>)
    requires Written(first, before, middle, start, pos, left)
    requires if first == Done then Written(r, middle, after, start, pos + |left|, right) else r == first && after == middle
    ensures Written(r, before, after, start, pos, left + right)
  {
    if pos + |left + right| <= |before| {
      PatchTwice(before, pos, left, right);
    }
  }

  lemma NothingWritten(r: Outcome, buffer: seq<u8>, start: nat, pos: nat)
    requires start <= |buffer| && (r == Done || pos > |buffer|)
    ensures Written(r, buffer, buffer, start, pos, [])
    ensures forall piece :: pos > |buffer| ==> Written(r, buffer, buffer, start, pos, piece)
  {
  }

  /** A slice that begins inside a slice. */
  lemma Inside(r: Outcome, before: seq<u8>, after: seq<u8>, start: nat, later: nat, pos: nat, piece: seq<u8>)
    requires start <= later && Written(r, before, after, later, pos, piece)
    ensures Written(r, before, after, start, pos, piece)
  {
    assert after[..start] == after[..later][..start] && before[..start] == before[..later][..start];
  }

  /** The fixed part of a field goes to offset `at` of the slice that begins at `start`. */
  method WriteFixed(s: Schema, v: Value, bytes: array<u8>, start: nat, at: nat) returns (r: Outcome)
    requires WellFormed(s) && Typed(s, v) && start <= bytes.Length
    modifies bytes
    ensures Written(r, old(bytes[..]), bytes[..], start, start + at, Fixed(s, v))
    ensures |Fixed(s, v)| == FixedLen(s)
  {
    LengthIsExact(s, v);
    var piece := Fixed(s, v);
    if piece == [] {
      r := Done;
    } else if start + at + |piece| <= bytes.Length {
      CopyInto(bytes, start + at, piece);
      r := Done;
    } else {
      r := TooShort;
    }
  }

  /** The variable part of a field, at `ptr` of the slice that begins at `start`; `next` is the pointer after it. */
  method WriteTail(s: Schema, v: Value, bytes: array<u8>, start: nat, ptr: nat) returns (r: Outcome, next: nat)
    requires WellFormed(s) && Typed(s, v) && start <= bytes.Length
    modifies bytes
    ensures Written(r, old(bytes[..]), bytes[..], start, start + ptr, Tail(s, v))
    ensures r == Done ==> next == ptr + TailLen(s, v)
    decreases v, 2
  {
    hide Written, Patch;
    if s.Str? {
      r := WriteText(v.text, bytes, start, ptr);
      next := ptr + |v.text|;
    } else if v.VSome? {
      assert Tail(s, v) == Encode(s.inner, v.value);
      r, next := WriteInner(s.inner, v.value, bytes, start, ptr);
    } else if s.Vec? || s.Arr? {
      r, next := WriteItems(s.item, v.items, bytes, start, ptr);
    } else if s.Struct? || s.Enum? {
      r := WriteDelegated(s, v, bytes, start, ptr);
      next := ptr + ByteLen(s, v);
    } else {
      r, next := Done, ptr;
      NothingWritten(Done, bytes[..], start, start + ptr);
    }
  }

  method WriteText(text: seq<u8>, bytes: array<u8>, start: nat, ptr: nat) returns (r: Outcome)
    requires start <= bytes.Length
    modifies bytes
    ensures Written(r, old(bytes[..]), bytes[..], start, start + ptr, text)
  {
    if start + ptr + |text| <= bytes.Length {
      CopyInto(bytes, start + ptr, text);
      r := Done;
    } else {
      r := TooShort;
    }
  }

  /** The value inside an option: its fixed part at the pointer, then its variable part. */
  method WriteInner(inner: Schema, value: Value, bytes: array<u8>, start: nat, ptr: nat) returns (r: Outcome, next: nat)
    requires WellFormed(inner) && Typed(inner, value) && start <= bytes.Length
    modifies bytes
    ensures Written(r, old(bytes[..]), bytes[..], start, start + ptr, Encode(inner, value))
    ensures r == Done ==> next == ptr + ByteLen(inner, value)
    decreases value, 3
  {
    hide Written, Patch, Fixed, Tail, TailLen;
    next := ptr;
    var first := WriteFixed(inner, value, bytes, start, ptr);
    ghost var middle := bytes[..];
    r := first;
    if first == Done {
      r, next := WriteTail(inner, value, bytes, start, ptr + FixedLen(inner));
    }
    Sequence(first, r, old(bytes[..]), middle, bytes[..], start, start + ptr, Fixed(inner, value), Tail(inner, value));
  }

  /** A struct or an enum writes itself into the rest of the slice. */
  method WriteDelegated(s: Schema, v: Value, bytes: array<u8>, start: nat, ptr: nat) returns (r: Outcome)
    requires s.Struct? || s.Enum?
    requires WellFormed(s) && Typed(s, v) && start <= bytes.Length
    modifies bytes
    ensures Written(r, old(bytes[..]), bytes[..], start, start + ptr, Tail(s, v))
    decreases v, 1
  {
    hide Written, Patch;
    if start + ptr > bytes.Length {
      r := Panicked;
      NothingWritten(Panicked, bytes[..], start, start + ptr);
    } else {
      match s {
        case Struct(fields) => r := WriteFields(fields, v.values, bytes, start + ptr, 0);
        case Enum(variants) => r := WriteVariant(variants, v.tag, v.values, bytes, start + ptr);
      }
      Inside(r, old(bytes[..]), bytes[..], start, start + ptr, start + ptr, Tail(s, v));
    }
  }

  /** The items of a list, one after the other. */
  method WriteItems(item: Schema, items: seq<Value>, bytes: array<u8>, start: nat, ptr: nat) returns (r: Outcome, next: nat)
    requires WellFormed(item) && AllTyped(item, items) && start <= bytes.Length
    modifies bytes
    ensures Written(r, old(bytes[..]), bytes[..], start, start + ptr, EncodeAll(item, items))
    ensures r == Done ==> next == ptr + ByteLenAll(item, items)
    decreases items, 0
  {
    hide Written, Patch, Encode, ByteLen, Typed, WellFormed;
    next := ptr;
    r := Done;
    NothingWritten(Done, bytes[..], start, start + ptr);
    var i := 0;
    while i < |items|
      invariant i <= |items| && r == Done
      invariant Written(Done, old(bytes[..]), bytes[..], start, start + ptr, EncodeAll(item, items[..i]))
      invariant next == ptr + ByteLenAll(item, items[..i]) == ptr + |EncodeAll(item, items[..i])|
    {
      ghost var middle := bytes[..];
      ItemAt(item, items, i);
      r := WriteItem(item, items[i], bytes, start, next);
      Sequence(Done, r, old(bytes[..]), middle, bytes[..], start, start + ptr, EncodeAll(item, items[..i]), Encode(item, items[i]));
      assert EncodeAll(item, items[..i + 1]) == EncodeAll(item, items[..i]) + Encode(item, items[i])
          && ByteLenAll(item, items[..i + 1]) == ByteLenAll(item, items[..i]) + ByteLen(item, items[i]) by {
        EncodeAppend(item, items[..i], items[i]);
        assert items[..i + 1] == items[..i] + [items[i]];
      }
      if r != Done {
        EncodeSplit(item, items, i + 1);
        Sequence(r, r, old(bytes[..]), bytes[..], bytes[..], start, start + ptr,
                 EncodeAll(item, items[..i + 1]), EncodeAll(item, items[i + 1..]));
        return;
      }
      LengthIsExact(item, items[i]);
      next := next + ByteLen(item, items[i]);
      i := i + 1;
    }
    assert items[..i] == items;
  }

  /** One item, into the rest of the slice. */
  method WriteItem(item: Schema, v: Value, bytes: array<u8>, start: nat, ptr: nat) returns (r: Outcome)
    requires WellFormed(item) && Typed(item, v) && start <= bytes.Length
    modifies bytes
    ensures Written(r, old(bytes[..]), bytes[..], start, start + ptr, Encode(item, v))
    decreases v, 6
  {
    hide Written, Patch, Encode;
    if start + ptr > bytes.Length {
      r := Panicked;
      NothingWritten(Panicked, bytes[..], start, start + ptr);
    } else {
      r := WriteValue(item, v, bytes, start + ptr);
      Inside(r, old(bytes[..]), bytes[..], start, start + ptr, start + ptr, Encode(item, v));
    }
  }

  lemma {:induction false} ItemAt(item: Schema, items: seq<Value>, i: nat)
    requires AllTyped(item, items) && i < |items|
    ensures Typed(item, items[i])
  {
    if i > 0 {
      ItemAt(item, items[1..], i - 1);
    }
  }

  lemma {:induction false} EncodeSplit(item: Schema, items: seq<Value>, i: nat)
    requires i <= |items|
    ensures EncodeAll(item, items[..i]) + EncodeAll(item, items[i..]) == EncodeAll(item, items)
    decreases i
  {
    hide Encode;
    if i == 0 {
      assert items[..0] == [] && items[0..] == items;
    } else {
      EncodeSplit(item, items[1..], i - 1);
      assert items[..i][1..] == items[1..][..i - 1];
      assert items[i..] == items[1..][i - 1..];
    }
  }

  /** First the fixed parts of all fields, at offsets from `base` on, then their variable parts. */
  method WriteFields(fields: seq<Schema>, values: seq<Value>, bytes: array<u8>, start: nat, base: nat) returns (r: Outcome)
    requires AllWellFormed(fields) && FieldsTyped(fields, values) && start <= bytes.Length
    modifies bytes
    ensures Written(r, old(bytes[..]), bytes[..], start, start + base, FixedAll(fields, values) + TailAll(fields, values))
    decreases values, 1
  {
    hide Written, Patch;
    FieldLengths(fields, values);
    var first := WriteFixedParts(fields, values, bytes, start, base);
    ghost var middle := bytes[..];
    r := first;
    if first == Done {
      r := WriteTails(fields, values, bytes, start, base + FixedLenAll(fields));
    }
    Sequence(first, r, old(bytes[..]), middle, bytes[..], start, start + base, FixedAll(fields, values), TailAll(fields, values));
  }

  /** The fixed parts of all fields, at their static offsets. */
  method WriteFixedParts(fields: seq<Schema>, values: seq<Value>, bytes: array<u8>, start: nat, at: nat) returns (r: Outcome)
    requires AllWellFormed(fields) && FieldsTyped(fields, values) && start <= bytes.Length
    modifies bytes
    ensures Written(r, old(bytes[..]), bytes[..], start, start + at, FixedAll(fields, values))
    decreases |fields|
  {
    hide Written, Patch, Fixed, FixedLen, Typed, WellFormed;
    r := Done;
    if fields == [] {
      NothingWritten(Done, bytes[..], start, start + at);
    } else {
      var first := WriteFixed(fields[0], values[0], bytes, start, at);
      ghost var middle := bytes[..];
      r := first;
      if first == Done {
        r := WriteFixedParts(fields[1..], values[1..], bytes, start, at + FixedLen(fields[0]));
      }
      Sequence(first, r, old(bytes[..]), middle, bytes[..], start, start + at,
               Fixed(fields[0], values[0]), FixedAll(fields[1..], values[1..]));
    }
  }

  /** The variable parts of all fields, one after the other. */
  method WriteTails(fields: seq<Schema>, values: seq<Value>, bytes: array<u8>, start: nat, ptr: nat) returns (r: Outcome)
    requires AllWellFormed(fields) && FieldsTyped(fields, values) && start <= bytes.Length
    modifies bytes
    ensures Written(r, old(bytes[..]), bytes[..], start, start + ptr, TailAll(fields, values))
    decreases values, 0
  {
    hide Written, Patch, Tail, TailLen, Typed, WellFormed;
    r := Done;
    if fields == [] {
      NothingWritten(Done, bytes[..], start, start + ptr);
    } else {
      LengthIsExact(fields[0], values[0]);
      var first, next := WriteTail(fields[0], values[0], bytes, start, ptr);
      ghost var middle := bytes[..];
      r := first;
      if first == Done {
        r := WriteTails(fields[1..], values[1..], bytes, start, next);
      }
      Sequence(first, r, old(bytes[..]), middle, bytes[..], start, start + ptr,
               Tail(fields[0], values[0]), TailAll(fields[1..], values[1..]));
    }
  }

  /** A variant writes its fields after the place of the tag, and the tag last. */
  method WriteVariant(variants: seq<Variant>, tag: nat, values: seq<Value>, bytes: array<u8>, start: nat) returns (r: Outcome)
    requires WellFormed(Enum(variants)) && Typed(Enum(variants), VEnum(tag, values)) && start <= bytes.Length
    modifies bytes
    ensures Written(r, old(bytes[..]), bytes[..], start, start, Tail(Enum(variants), VEnum(tag, values)))
    decreases values, 2
  {
    var fields := variants[tag].fields;
    VariantLenIs(|variants|);
    hide FixedAll, TailAll, Typed, Patch, Written, VariantLen;
    r := WriteFields(fields, values, bytes, start, VariantLen(|variants|));
    ghost var wrote := r;
    ghost var middle, body := bytes[..], FixedAll(fields, values) + TailAll(fields, values);
    if |variants| > 1 {
      assert Tail(Enum(variants), VEnum(tag, values)) == [tag] + body;
      if r != Done {
        TagMissing(wrote, r, old(bytes[..]), middle, start, tag, body);
      } else if start < bytes.Length {
        CopyInto(bytes, start, [tag]);
        TagLast(old(bytes[..]), middle, bytes[..], start, tag, body);
      } else {
        r := TooShort;
        TagMissing(wrote, r, old(bytes[..]), middle, start, tag, body);
      }
    } else {
      assert Tail(Enum(variants), VEnum(tag, values)) == body;
    }
  }

  lemma TagMissing(wrote: Outcome, r: Outcome, before: seq<u8>, after: seq<u8>, start: nat, tag: u8, body: seq<u8>)
    requires Written(wrote, before, after, start, start + 1, body)
    requires r != Done && (r == wrote || start >= |before|)
    ensures Written(r, before, after, start, start, [tag] + body)
  {
  }

  lemma TagLast(before: seq<u8>, middle: seq<u8>, after: seq<u8>, start: nat, tag: u8, body: seq<u8>)
    requires start < |before| && Written(Done, before, middle, start, start + 1, body)
    requires after == Patch(middle, start, [tag])
    ensures Written(Done, before, after, start, start, [tag] + body)
  {
    if start + 1 + |body| <= |before| {
      PatchBefore(before, start, [tag], body);
    }
  }

  /**
   * `write_to_bytes` into the slice that begins at `start`: it succeeds iff the slice is long enough,
   * and then it has changed the first `byte_len` bytes of the slice and nothing else.
   */
  method WriteValue(s: Schema, v: Value, bytes: array<u8>, start: nat) returns (r: Outcome)
    requires WellFormed(s) && Typed(s, v) && start <= bytes.Length
    modifies bytes
    ensures Written(r, old(bytes[..]), bytes[..], start, start, Encode(s, v))
    ensures r == Done <==> start + ByteLen(s, v) <= bytes.Length
    ensures r == Done ==> bytes[..] == Patch(old(bytes[..]), start, Encode(s, v))
    decreases v, 5
  {
    LengthIsExact(s, v);
    var next;
    r, next := WriteInner(s, v, bytes, start, 0);
  }
}

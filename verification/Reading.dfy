/** The generated readers: they walk the buffer with a pointer and collect what they find. */
module Reading {
  import opened Options
  import opened Packets
  import opened Schemas
  import opened Encoding
  import opened Decoding

  method ReadValue(s: Schema, bytes: seq<u8>) returns (r: Read<Value>)
    ensures r == Decode(s, bytes)
    decreases s, 2
  {
    var header := ReadFixed(s, bytes, 0);
    if header.Err? {
      return Err(header.error);
    }
    var tail := ReadVariablePart(s, header.value, bytes, FixedLen(s));
    r := if tail.Ok? then Ok(tail.value.0) else Err(tail.error);
  }

  method ReadVariablePart(s: Schema, header: Header, bytes: seq<u8>, ptr: nat) returns (r: Read<(Value, nat)>)
    ensures r == ReadTail(s, header, bytes, ptr)
    decreases s, 1
  {
    if s.Opt? && header.Flag? && header.b {
      var inner := ReadFixed(s.inner, bytes, ptr);
      if inner.Err? {
        return Err(inner.error);
      }
      r := ReadVariablePart(s.inner, inner.value, bytes, ptr + FixedLen(s.inner));
      r := if r.Ok? then Ok((VSome(r.value.0), r.value.1)) else r;
    } else if s.Vec? && header.Count? {
      r := ReadList(s.item, header.n, bytes, ptr);
    } else if s.Arr? {
      r := ReadList(s.item, s.count, bytes, ptr);
    } else if s.Struct? && ptr <= |bytes| {
      var values := ReadFieldList(s.fields, bytes[ptr..], 0);
      r := if values.Ok? then Ok((VStruct(values.value), ptr + ByteLen(s, VStruct(values.value)))) else Err(values.error);
    } else if s.Enum? && ptr <= |bytes| {
      var v := ReadEnum(s.variants, bytes[ptr..]);
      r := if v.Ok? then Ok((v.value, ptr + ByteLen(s, v.value))) else Err(v.error);
    } else {
      r := ReadTail(s, header, bytes, ptr);
    }
  }

  /** The loop over the items of a list. */
  method ReadList(item: Schema, n: nat, bytes: seq<u8>, ptr: nat) returns (r: Read<(Value, nat)>)
    ensures r == ReadItems(item, n, bytes, ptr, [])
    decreases item, 3
  {
    var items: seq<Value> := [];
    var at: nat := ptr;
    for i := 0 to n
      invariant ReadItems(item, n - i, bytes, at, items) == ReadItems(item, n, bytes, ptr, [])
    {
      if at > |bytes| {
        return Err(Panic);
      }
      var v := ReadValue(item, bytes[at..]);
      if v.Err? {
        return Err(v.error);
      }
      at := at + ByteLen(item, v.value);
      items := items + [v.value];
    }
    r := Ok((VList(items), at));
  }

  /** First the fixed parts of all fields, then, with a moving pointer, their variable parts. */
  method ReadFieldList(fields: seq<Schema>, bytes: seq<u8>, base: nat) returns (r: Read<seq<Value>>)
    ensures r == ReadFields(fields, bytes, base)
    decreases fields, 1
  {
    var headers := ReadHeaders(fields, bytes, base, []);
    if headers.Err? {
      return Err(headers.error);
    }
    var values: seq<Value> := [];
    var ptr: nat := base + FixedLenAll(fields);
    for i := 0 to |fields|
      invariant ReadTails(fields[i..], headers.value[i..], bytes, ptr, values)
             == ReadTails(fields, headers.value, bytes, base + FixedLenAll(fields), [])
    {
      assert fields[i..][0] == fields[i] && fields[i..][1..] == fields[i + 1..];
      assert headers.value[i..][0] == headers.value[i] && headers.value[i..][1..] == headers.value[i + 1..];
      var v := ReadVariablePart(fields[i], headers.value[i], bytes, ptr);
      if v.Err? {
        return Err(v.error);
      }
      values, ptr := values + [v.value.0], v.value.1;
    }
    r := Ok(values);
  }

  method ReadEnum(variants: seq<Variant>, bytes: seq<u8>) returns (r: Read<Value>)
    ensures r == ReadVariant(variants, bytes)
    decreases variants, 0
  {
    if |variants| == 0 {
      r := Err(InvalidValue);
    } else if |variants| == 1 {
      var values := ReadFieldList(variants[0].fields, bytes, 0);
      r := Tagged(0, values);
    } else if bytes == [] {
      r := Err(SliceTooShort);
    } else if bytes[0] < |variants| {
      var values := ReadFieldList(variants[bytes[0]].fields, bytes, VariantLen(|variants|));
      r := Tagged(bytes[0], values);
    } else {
      r := Err(InvalidValue);
    }
  }
}

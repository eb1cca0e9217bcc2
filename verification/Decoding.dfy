/**
 * Reading a value back: the fixed parts of all fields at offsets known from the schema, then the
 * variable parts with a pointer that moves on by what each of them takes.
 */
module Decoding {
  import opened Options
  import opened Packets
  import opened Schemas
  import opened Encoding

  /** What the generated reader returns or does: `Panic` is a slice that starts or ends outside the buffer. */
  datatype ReadError = SliceTooShort | InvalidValue | Panic

  /** What the fixed part of a field says: the value itself, a presence flag, or a length. */
  datatype Header = NoHeader | Ready(v: Value) | Flag(b: bool) | Count(n: nat)

  type Read<T> = Result<T, ReadError>

  function ReadFixed(s: Schema, bytes: seq<u8>, at: nat): Read<Header> {
    match s
    case Unit => Ok(Ready(VUnit))
    case Bool => if at < |bytes| then Ok(Ready(VBool(bytes[at] == 1))) else Err(SliceTooShort)
    case Scalar(width) =>
      if at + width <= |bytes| then Ok(Ready(VScalar(FromLe(bytes[at..at + width])))) else Err(SliceTooShort)
    case Str => ReadCount(bytes, at)
    case Opt(_) => if at < |bytes| then Ok(Flag(bytes[at] == 1)) else Err(SliceTooShort)
    case Vec(_) => ReadCount(bytes, at)
    case _ => Ok(NoHeader)
  }

  function ReadCount(bytes: seq<u8>, at: nat): Read<Header> {
    if at + 4 <= |bytes| then Ok(Count(FromLe(bytes[at..at + 4]))) else Err(SliceTooShort)
  }

  /** The fixed parts of the fields, from offset `at` on. */
  function ReadHeaders(fields: seq<Schema>, bytes: seq<u8>, at: nat, done: seq<Header>): (r: Read<seq<Header>>)
    ensures r.Ok? ==> |r.value| == |done| + |fields|
    decreases |fields|
  {
    if fields == [] then Ok(done) else
    match ReadFixed(fields[0], bytes, at)
    case Err(e) => Err(e)
    case Ok(header) => ReadHeaders(fields[1..], bytes, at + FixedLen(fields[0]), done + [header])
  }

  /** The variable part of a field at `ptr`, and the pointer after it. */
  function ReadTail(s: Schema, header: Header, bytes: seq<u8>, ptr: nat): Read<(Value, nat)>
    decreases s, 1
  {
    match (s, header)
    case (Str, Count(n)) => if ptr + n <= |bytes| then Ok((VStr(bytes[ptr..ptr + n]), ptr + n)) else Err(Panic)
    case (Opt(inner), Flag(b)) =>
      if !b then Ok((VNone, ptr)) else
      (match ReadFixed(inner, bytes, ptr)
       case Err(e) => Err(e)
       case Ok(h) =>
         match ReadTail(inner, h, bytes, ptr + FixedLen(inner))
         case Err(e) => Err(e)
         case Ok((v, next)) => Ok((VSome(v), next)))
    case (Vec(item), Count(n)) => ReadItems(item, n, bytes, ptr, [])
    case (Arr(item, n), _) => ReadItems(item, n, bytes, ptr, [])
    case (Struct(fields), _) =>
      if ptr > |bytes| then Err(Panic) else
      (match ReadFields(fields, bytes[ptr..], 0)
       case Err(e) => Err(e)
       case Ok(values) => Ok((VStruct(values), ptr + ByteLen(s, VStruct(values)))))
    case (Enum(variants), _) =>
      if ptr > |bytes| then Err(Panic) else
      (match ReadVariant(variants, bytes[ptr..])
       case Err(e) => Err(e)
       case Ok(v) => Ok((v, ptr + ByteLen(s, v))))
    case (_, Ready(v)) => Ok((v, ptr))
    case _ => Err(InvalidValue)
  }

  /** `from_bytes`. */
  function Decode(s: Schema, bytes: seq<u8>): Read<Value>
    decreases s, 2
  {
    match ReadFixed(s, bytes, 0)
    case Err(e) => Err(e)
    case Ok(header) =>
      match ReadTail(s, header, bytes, FixedLen(s))
      case Err(e) => Err(e)
      case Ok((v, _)) => Ok(v)
  }

  /** `n` more items, after the items in `done`. */
  function ReadItems(item: Schema, n: nat, bytes: seq<u8>, ptr: nat, done: seq<Value>): Read<(Value, nat)>
    decreases item, 3, n
  {
    if n == 0 then Ok((VList(done), ptr))
    else if ptr > |bytes| then Err(Panic) else
    match Decode(item, bytes[ptr..])
    case Err(e) => Err(e)
    case Ok(v) => ReadItems(item, n - 1, bytes, ptr + ByteLen(item, v), done + [v])
  }

  function ReadFields(fields: seq<Schema>, bytes: seq<u8>, base: nat): Read<seq<Value>>
    decreases fields, 1
  {
    match ReadHeaders(fields, bytes, base, [])
    case Err(e) => Err(e)
    case Ok(headers) => ReadTails(fields, headers, bytes, base + FixedLenAll(fields), [])
  }

  function ReadTails(fields: seq<Schema>, headers: seq<Header>, bytes: seq<u8>, ptr: nat, done: seq<Value>): Read<seq<Value>>
    requires |headers| == |fields|
    decreases fields, 0
  {
    if fields == [] then Ok(done) else
    match ReadTail(fields[0], headers[0], bytes, ptr)
    case Err(e) => Err(e)
    case Ok((v, next)) => ReadTails(fields[1..], headers[1..], bytes, next, done + [v])
  }

  function ReadVariant(variants: seq<Variant>, bytes: seq<u8>): Read<Value>
    decreases variants, 0
  {
    if |variants| == 0 then Err(InvalidValue)
    else if |variants| == 1 then Tagged(0, ReadFields(variants[0].fields, bytes, 0))
    else if bytes == [] then Err(SliceTooShort)
    else if bytes[0] < |variants| then Tagged(bytes[0], ReadFields(variants[bytes[0]].fields, bytes, VariantLen(|variants|)))
    else Err(InvalidValue)
  }

  function Tagged(tag: nat, r: Read<seq<Value>>): Read<Value> {
    match r
    case Err(e) => Err(e)
    case Ok(values) => Ok(VEnum(tag, values))
  }
}

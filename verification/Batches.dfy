/** Writing as many values of one type as fit, and reading them all back. */
module Batches {
  import opened Options
  import opened Packets
  import opened Schemas
  import opened Encoding
  import opened Decoding
  import opened RoundTrip
  import opened ReadSoundness
  import opened Lengths
  import opened Writing
  import opened Reading
  import opened EmptyTypes

  /** The number of values in the longest prefix that fits into `room` bytes. */
  function FitCount(item: Schema, values: seq<Value>, room: nat): (n: nat)
    ensures n <= |values|
    decreases |values|
  {
    if values == [] || ByteLen(item, values[0]) > room then 0
    else 1 + FitCount(item, values[1..], room - ByteLen(item, values[0]))
  }

  lemma {:induction false} FitIsLongest(item: Schema, values: seq<Value>, room: nat, m: nat)
    requires m <= |values|
    ensures ByteLenAll(item, values[..m]) <= room <==> m <= FitCount(item, values, room)
    decreases |values|
  {
    hide ByteLen;
    if m > 0 {
      assert values[..m][1..] == values[1..][..m - 1];
      if ByteLen(item, values[0]) <= room {
        FitIsLongest(item, values[1..], room - ByteLen(item, values[0]), m - 1);
      }
    }
  }

  /** Nothing to write. */
  lemma FitEnd(item: Schema, room: nat)
    ensures FitCount(item, [], room) == 0 && EncodeAll(item, []) == []
  {
  }

  /** What the test of the write loop decides. */
  lemma FitStep(item: Schema, values: seq<Value>, count: nat, room: nat)
    requires count < |values|
    ensures FitCount(item, values[count..], room)
         == if ByteLen(item, values[count]) > room then 0
            else 1 + FitCount(item, values[count + 1..], room - ByteLen(item, values[count]))
  {
    hide ByteLen;
    assert values[count..][1..] == values[count + 1..];
  }

  /**
   * `write_many`: the longest prefix of the values that fits has been written, and nothing after it
   * has been changed.
   */
  method WriteMany(item: Schema, values: seq<Value>, bytes: array<u8>) returns (count: nat, ptr: nat)
    requires WellFormed(item) && AllTyped(item, values)
    modifies bytes
    ensures count == FitCount(item, values, bytes.Length)
    ensures ptr == ByteLenAll(item, values[..count]) <= bytes.Length
    ensures bytes[..] == Patch(old(bytes[..]), 0, EncodeAll(item, values[..count]))
  {
    hide ByteLen, Encode, Written, Typed, WellFormed, Patch, FitCount, EncodeAll;
    PatchNothing(bytes[..]);
    FitEnd(item, bytes.Length);
    ptr, count := 0, 0;
    while count < |values|
      invariant count <= |values|
      invariant ptr == ByteLenAll(item, values[..count]) == |EncodeAll(item, values[..count])| <= bytes.Length
      invariant count + FitCount(item, values[count..], bytes.Length - ptr) == FitCount(item, values, bytes.Length)
      invariant bytes[..] == Patch(old(bytes[..]), 0, EncodeAll(item, values[..count]))
      decreases |values| - count
    {
      var v := values[count];
      ItemAt(item, values, count);
      LengthIsExact(item, v);
      FitStep(item, values, count, bytes.Length - ptr);
      if bytes.Length - ptr < ByteLen(item, v) {
        return;
      }
      var r := WriteValue(item, v, bytes, ptr);
      if r != Done {
        return;
      }
      PatchTwice(old(bytes[..]), 0, EncodeAll(item, values[..count]), Encode(item, v));
      EncodeAppend(item, values[..count], v);
      assert values[..count + 1] == values[..count] + [v];
      ptr := ptr + ByteLen(item, v);
      count := count + 1;
    }
    assert values[count..] == [];
    FitEnd(item, bytes.Length - ptr);
  }

  /** The read loop; it goes on while there could be another value. */
  function ReadAll(item: Schema, bytes: seq<u8>, ptr: nat, done: seq<Value>): Read<(seq<Value>, nat)>
    requires WellFormed(item) && (MinLen(item) > 0 || bytes == []) && ptr <= |bytes|
    decreases |bytes| - ptr
  {
    if ptr >= |bytes| || |bytes| - ptr < MinLen(item) then Ok((done, ptr)) else
    var v := Decode(item, bytes[ptr..]);
    if v.Err? then Err(v.error) else
    DecodeIsSound(item, bytes[ptr..]);
    MinHolds(item, v.value);
    ReadAll(item, bytes, ptr + ByteLen(item, v.value), done + [v.value])
  }

  /**
   * `read_many`: it ends for every buffer, whatever it contains, if a value of the type has at least
   * one byte; on a type without bytes it could only end on the empty buffer.
   */
  method ReadMany(item: Schema, bytes: seq<u8>) returns (r: Read<(seq<Value>, nat)>)
    requires WellFormed(item) && (MinLen(item) > 0 || bytes == [])
    ensures r == ReadAll(item, bytes, 0, [])
  {
    hide Decode, ByteLen, MinLen, Typed, WellFormed;
    var ptr, values := 0, [];
    while |bytes| > ptr && |bytes| - ptr >= MinLen(item)
      invariant ptr <= |bytes|
      invariant ReadAll(item, bytes, ptr, values) == ReadAll(item, bytes, 0, [])
      decreases |bytes| - ptr
    {
      var v := ReadValue(item, bytes[ptr..]);
      if v.Err? {
        return Err(v.error);
      }
      DecodeIsSound(item, bytes[ptr..]);
      MinHolds(item, v.value);
      ptr := ptr + ByteLen(item, v.value);
      values := values + [v.value];
    }
    r := Ok((values, ptr));
  }

  /** The read loop takes in a batch value by value and goes on with what follows it. */
  lemma {:induction false} BatchIsTaken(item: Schema, values: seq<Value>, rest: seq<u8>, bytes: seq<u8>, ptr: nat, done: seq<Value>)
    requires WellFormed(item) && AllTyped(item, values) && MinLen(item) > 0
    requires ptr <= |bytes| && bytes[ptr..] == EncodeAll(item, values) + rest
    ensures |rest| <= |bytes|
    ensures ReadAll(item, bytes, ptr, done) == ReadAll(item, bytes, |bytes| - |rest|, done + values)
    decreases |values|
  {
    hide Decode, Encode, ByteLen, MinLen, Typed, WellFormed;
    if values == [] {
      Nothing(done);
      assert ptr == |bytes| - |rest|;
    } else {
      var v, left := values[0], values[1..];
      assert At(bytes[ptr..], 0, Encode(item, v));
      DecodeRoundTrip(item, v, bytes[ptr..]);
      LengthIsExact(item, v);
      MinHolds(item, v);
      assert bytes[ptr + ByteLen(item, v)..] == bytes[ptr..][ByteLen(item, v)..] == EncodeAll(item, left) + rest;
      BatchIsTaken(item, left, rest, bytes, ptr + ByteLen(item, v), done + [v]);
      Append(done, values);
    }
  }

  /** Bytes after a batch that are too few for another value are left alone; others must be one, or are an error. */
  lemma ReadAfterBatch(item: Schema, values: seq<Value>, rest: seq<u8>)
    requires WellFormed(item) && AllTyped(item, values) && MinLen(item) > 0
    ensures |rest| < MinLen(item) ==>
      ReadAll(item, EncodeAll(item, values) + rest, 0, []) == Ok((values, ByteLenAll(item, values)))
    ensures |rest| >= MinLen(item) && Decode(item, rest).Err? ==>
      ReadAll(item, EncodeAll(item, values) + rest, 0, []) == Err(Decode(item, rest).error)
  {
    hide Encode, ByteLen, MinLen, Typed, WellFormed, Decode;
    var bytes := EncodeAll(item, values) + rest;
    assert bytes[0..] == bytes;
    BatchIsTaken(item, values, rest, bytes, 0, []);
    AllLengths(item, values);
    Nothing(values);
    assert bytes[|bytes| - |rest|..] == rest;
  }

  /** What `WriteMany` writes is what `ReadMany` returns, with the same count of bytes. */
  lemma WrittenBatchIsRead(item: Schema, values: seq<Value>)
    requires WellFormed(item) && AllTyped(item, values) && MinLen(item) > 0
    ensures ReadAll(item, EncodeAll(item, values), 0, []) == Ok((values, ByteLenAll(item, values)))
  {
    hide Encode, ByteLen, MinLen, Typed, WellFormed, ReadAll;
    assert EncodeAll(item, values) + [] == EncodeAll(item, values);
    ReadAfterBatch(item, values, []);
  }

  /** Where the read loop stands: about to look at the bytes from `ptr` on, or at its end. */
  datatype ReadState = Before(ptr: nat, values: seq<Value>) | Ended(result: Read<(seq<Value>, nat)>)

  /** One round of the read loop. */
  function ReadRound(item: Schema, bytes: seq<u8>, now: ReadState): ReadState {
    match now
    case Ended(_) => now
    case Before(ptr, values) =>
      if ptr >= |bytes| || |bytes| - ptr < MinLen(item) then Ended(Ok((values, ptr))) else
      match Decode(item, bytes[ptr..])
      case Err(e) => Ended(Err(e))
      case Ok(v) => Before(ptr + ByteLen(item, v), values + [v])
  }

  /** Where the read loop stands after `rounds` rounds. */
  function ReadingAfter(item: Schema, bytes: seq<u8>, now: ReadState, rounds: nat): ReadState
    decreases rounds
  {
    if rounds == 0 then now else ReadingAfter(item, bytes, ReadRound(item, bytes, now), rounds - 1)
  }

  /** The read loop ends iff a value of the type has at least one byte or the buffer is empty. */
  lemma ReadEndsIff(item: Schema, bytes: seq<u8>)
    requires WellFormed(item)
    ensures (exists rounds: nat :: ReadingAfter(item, bytes, Before(0, []), rounds).Ended?)
       <==> MinLen(item) > 0 || bytes == []
  {
    hide WellFormed, MinLen, ReadingAfter, ReadAll;
    if MinLen(item) > 0 || bytes == [] {
      var rounds := ReadEnds(item, bytes, 0, []);
    } else {
      forall rounds: nat ensures !ReadingAfter(item, bytes, Before(0, []), rounds).Ended? {
        ReadGoesOn(item, bytes, [], rounds);
      }
    }
  }

  /** If it ends, then with the result that `ReadMany` returns. */
  lemma {:induction false} ReadEnds(item: Schema, bytes: seq<u8>, ptr: nat, values: seq<Value>) returns (rounds: nat)
    requires WellFormed(item) && (MinLen(item) > 0 || bytes == []) && ptr <= |bytes|
    ensures ReadingAfter(item, bytes, Before(ptr, values), rounds) == Ended(ReadAll(item, bytes, ptr, values))
    decreases |bytes| - ptr
  {
    hide WellFormed, MinLen, Decode, ByteLen, Typed;
    rounds := 1;
    if ptr < |bytes| && |bytes| - ptr >= MinLen(item) && Decode(item, bytes[ptr..]).Ok? {
      var v := Decode(item, bytes[ptr..]).value;
      DecodeIsSound(item, bytes[ptr..]);
      MinHolds(item, v);
      var more := ReadEnds(item, bytes, ptr + ByteLen(item, v), values + [v]);
      rounds := more + 1;
    } else {
      var next := ReadRound(item, bytes, Before(ptr, values));
      assert ReadingAfter(item, bytes, next, 0) == next;
    }
  }

  /** On a type without bytes and a buffer that is not empty every round reads one more value from the same place. */
  lemma {:induction false} ReadGoesOn(item: Schema, bytes: seq<u8>, values: seq<Value>, rounds: nat)
    requires WellFormed(item) && MinLen(item) == 0 && bytes != []
    ensures var now := ReadingAfter(item, bytes, Before(0, values), rounds);
      now.Before? && now.ptr == 0 && |now.values| == |values| + rounds
    decreases rounds
  {
    hide WellFormed, MinLen, Decode, ByteLen;
    if rounds > 0 {
      assert bytes[0..] == bytes;
      EmptyIsRead(item, bytes);
      ReadGoesOn(item, bytes, values + [Decode(item, bytes).value], rounds - 1);
    }
  }

  /** One byte is enough for the type without fields: the loop never ends on it. */
  lemma ReadNeverEnds()
    ensures forall rounds: nat :: !ReadingAfter(Unit, [0], Before(0, []), rounds).Ended?
  {
    assert MinLen(Unit) == 0 && WellFormed(Unit);
    ReadEndsIff(Unit, [0]);
  }
}

/**
  The part of Python's `struct` module that the record codec relies on: packing
  and unpacking a format made only of `B` (unsigned char) items, such as `'<BBB'`.

  A format of `count` `B` items has size `count` bytes. The byte-order prefix
  `<` has no observable effect on one-byte items, so it is not modelled.

  Packing first checks that exactly `count` values were given, then converts
  the values in argument order; the first value outside 0..255 raises.
  Unpacking checks that the buffer holds exactly `count` bytes, then reads each
  byte as an unsigned integer. Python raises `struct.error` on each failure; here
  failures are `Err` values carrying what went wrong.
 */
module Struct {

  /** An element of a Python `bytes` object. */
  type Byte = x: int | 0 <= x < 256

  /** The ways `struct.pack` and `struct.unpack` fail on a `B`-only format. */
  datatype StructError =
    /** `pack` was given `got` values for a format of `expected` items. */
    | ItemCount(expected: nat, got: nat)
    /** `pack` was given `value` for a `B` item, which needs 0 <= value <= 255.
        Python's message does not include the value; the model keeps it. */
    | OutOfRange(value: int)
    /** `unpack` was given a buffer of `got` bytes for a format of size `expected`.
        Python's message names only the expected size; the model keeps both. */
    | BufferSize(expected: nat, got: nat)

  datatype Result<+T> = Ok(value: T) | Err(error: StructError)

  /** The range a `B` (unsigned char) item accepts. */
  predicate IsUnsignedChar(x: int) {
    0 <= x <= 255
  }

  predicate AllUnsignedChars(values: seq<int>) {
    forall i :: 0 <= i < |values| ==> IsUnsignedChar(values[i])
  }

  /** `values[i]` is the first value that a `B` item rejects. */
  predicate FirstOutOfRange(values: seq<int>, i: int) {
    && 0 <= i < |values|
    && !IsUnsignedChar(values[i])
    && forall j :: 0 <= j < i ==> IsUnsignedChar(values[j])
  }

  /** The bytes, read back as Python integers. */
  predicate SameValues(bytes: seq<Byte>, values: seq<int>) {
    && |bytes| == |values|
    && forall i :: 0 <= i < |bytes| ==> bytes[i] as int == values[i]
  }

  /** Packs each value into one byte, in order, failing at the first value out of range. */
  function EncodeUnsignedChars(values: seq<int>): (r: Result<seq<Byte>>)
    ensures r.Ok? <==> AllUnsignedChars(values)
    ensures r.Ok? ==> SameValues(r.value, values)
    ensures r.Err? ==> exists i :: FirstOutOfRange(values, i) && r.error == OutOfRange(values[i])
    decreases |values|
  {
    if |values| == 0 then Ok([])
    else if !IsUnsignedChar(values[0]) then
      assert FirstOutOfRange(values, 0);
      Err(OutOfRange(values[0]))
    else
      match EncodeUnsignedChars(values[1..])
      case Ok(rest) => Ok([values[0] as Byte] + rest)
      case Err(e) =>
        var i :| FirstOutOfRange(values[1..], i) && e == OutOfRange(values[1..][i]);
        assert FirstOutOfRange(values, i + 1);
        Err(e)
  }

  /** Reads each byte as an unsigned integer, in order. */
  function DecodeUnsignedChars(bytes: seq<Byte>): (r: seq<int>)
    ensures SameValues(bytes, r)
    ensures AllUnsignedChars(r)
    decreases |bytes|
  {
    if |bytes| == 0 then []
    else [bytes[0] as int] + DecodeUnsignedChars(bytes[1..])
  }

  /** `struct.pack` with a format of `count` `B` items. */
  function Pack(count: nat, values: seq<int>): (r: Result<seq<Byte>>)
    ensures |values| != count ==> r == Err(ItemCount(count, |values|))
    ensures r.Ok? <==> |values| == count && AllUnsignedChars(values)
    ensures r.Ok? ==> |r.value| == count && SameValues(r.value, values)
    ensures r.Err? && |values| == count ==>
              exists i :: FirstOutOfRange(values, i) && r.error == OutOfRange(values[i])
  {
    if |values| != count then Err(ItemCount(count, |values|))
    else EncodeUnsignedChars(values)
  }

  /** `struct.unpack` with a format of `count` `B` items. */
  function Unpack(count: nat, data: seq<Byte>): (r: Result<seq<int>>)
    ensures r.Ok? <==> |data| == count
    ensures r.Err? ==> r.error == BufferSize(count, |data|)
    ensures r.Ok? ==> |r.value| == count && AllUnsignedChars(r.value) && SameValues(data, r.value)
  {
    if |data| != count then Err(BufferSize(count, |data|))
    else Ok(DecodeUnsignedChars(data))
  }

  /** Decoding undoes encoding, item by item. */
  lemma DecodeEncode(values: seq<int>)
    requires AllUnsignedChars(values)
    ensures EncodeUnsignedChars(values).Ok?
    ensures DecodeUnsignedChars(EncodeUnsignedChars(values).value) == values
  {
  }

  /** Encoding undoes decoding, item by item. */
  lemma {:induction false} EncodeDecode(bytes: seq<Byte>)
    ensures EncodeUnsignedChars(DecodeUnsignedChars(bytes)) == Ok(bytes)
    decreases |bytes|
  {
    if |bytes| > 0 {
      EncodeDecode(bytes[1..]);
      assert bytes == [bytes[0]] + bytes[1..];
    }
  }

  /** Whatever `pack` accepts, `unpack` with the same format gives back. */
  lemma UnpackPack(count: nat, values: seq<int>)
    requires |values| == count && AllUnsignedChars(values)
    ensures Pack(count, values).Ok?
    ensures Unpack(count, Pack(count, values).value) == Ok(values)
  {
    DecodeEncode(values);
  }

  /** Whatever `unpack` accepts, `pack` with the same format gives back. */
  lemma PackUnpack(count: nat, data: seq<Byte>)
    requires |data| == count
    ensures Unpack(count, data).Ok?
    ensures Pack(count, Unpack(count, data).value) == Ok(data)
  {
    EncodeDecode(data);
  }
}

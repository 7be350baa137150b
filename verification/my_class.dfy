/**
  `MyClass`, a record of three integer fields `a`, `b`, `c`, and its fixed
  3-byte binary encoding with the `struct` format `'<BBB'`: one unsigned byte
  per field, in field order.
 */
module Codec {
  import opened Struct

  /** A record with its three fields. Records are values, compared field by field. */
  datatype MyClass = MyClass(a: int, b: int, c: int)

  /** The number of `B` items in the format `'<BBB'`, which is also its size in bytes. */
  const RecordSize: nat := 3

  /** The fields of a record, in the order they are packed. */
  function Fields(obj: MyClass): seq<int> {
    [obj.a, obj.b, obj.c]
  }

  /** Each field fits the unsigned char item it is packed into. */
  predicate InRange(obj: MyClass) {
    IsUnsignedChar(obj.a) && IsUnsignedChar(obj.b) && IsUnsignedChar(obj.c)
  }

  /** `MyClass.serialize`: `struct.pack('<BBB', a, b, c)`. */
  function Serialize(obj: MyClass): (r: Result<seq<Byte>>)
    ensures r.Ok? <==> InRange(obj)
    ensures r.Ok? ==> |r.value| == RecordSize
    ensures r.Ok? ==> r.value[0] == obj.a && r.value[1] == obj.b && r.value[2] == obj.c
    ensures r.Err? ==>
              || (!IsUnsignedChar(obj.a) && r.error == OutOfRange(obj.a))
              || (IsUnsignedChar(obj.a) && !IsUnsignedChar(obj.b) && r.error == OutOfRange(obj.b))
              || (IsUnsignedChar(obj.a) && IsUnsignedChar(obj.b) && !IsUnsignedChar(obj.c)
                  && r.error == OutOfRange(obj.c))
  {
    var fields := Fields(obj);
    assert fields[0] == obj.a && fields[1] == obj.b && fields[2] == obj.c;
    assert AllUnsignedChars(fields) <==> InRange(obj);
    var r := Pack(RecordSize, fields);
    assert r.Err? ==> exists i :: FirstOutOfRange(fields, i) && r.error == OutOfRange(fields[i]);
    r
  }

  /** `MyClass.deserialize`: `cls(*struct.unpack('<BBB', data))`. */
  function Deserialize(data: seq<Byte>): (r: Result<MyClass>)
    ensures r.Ok? <==> |data| == RecordSize
    ensures r.Err? ==> r.error == BufferSize(RecordSize, |data|)
    ensures r.Ok? ==> r.value == MyClass(data[0], data[1], data[2])
    ensures r.Ok? ==> InRange(r.value)
  {
    match Unpack(RecordSize, data)
    case Err(e) => Err(e)
    case Ok(values) => Ok(MyClass(values[0], values[1], values[2]))
  }

  /** Every record whose fields fit in a byte survives a serialize/deserialize round trip. */
  lemma RoundTrip(obj: MyClass)
    requires InRange(obj)
    ensures Serialize(obj).Ok?
    ensures Deserialize(Serialize(obj).value) == Ok(obj)
  {
  }

  /** Every 3-byte buffer survives a deserialize/serialize round trip. */
  lemma ReverseRoundTrip(data: seq<Byte>)
    requires |data| == RecordSize
    ensures Deserialize(data).Ok?
    ensures Serialize(Deserialize(data).value) == Ok(data)
  {
    var obj := Deserialize(data).value;
    assert InRange(obj);
    var bytes := Serialize(obj).value;
    assert bytes == data;
  }

  /** Distinct in-range records have distinct encodings. */
  lemma SerializeInjective(x: MyClass, y: MyClass)
    requires Serialize(x).Ok? && Serialize(y).Ok?
    ensures Serialize(x) == Serialize(y) <==> x == y
  {
  }

  /** The sample record `MyClass(1, 2, 3)` encodes as the bytes 1, 2, 3 and decodes back. */
  lemma SampleVector()
    ensures Serialize(MyClass(1, 2, 3)) == Ok([1, 2, 3])
    ensures Deserialize([1, 2, 3]) == Ok(MyClass(1, 2, 3))
  {
    ReverseRoundTrip([1, 2, 3]);
  }

  /** Field values just outside a byte are rejected, and so are buffers one byte short or long. */
  lemma BoundaryVectors()
    ensures Serialize(MyClass(256, 0, 0)) == Err(OutOfRange(256))
    ensures Serialize(MyClass(0, -1, 0)) == Err(OutOfRange(-1))
    ensures Serialize(MyClass(255, 255, 256)) == Err(OutOfRange(256))
    ensures Deserialize([1, 2]) == Err(BufferSize(RecordSize, 2))
    ensures Deserialize([1, 2, 3, 4]) == Err(BufferSize(RecordSize, 4))
  {
  }
}

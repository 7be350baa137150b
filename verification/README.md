# MyClass binary codec

A Dafny model of `MyClass` from `src/test.py`. The class is a record of three
integer fields `a`, `b`, `c` with a fixed binary encoding. `serialize` packs the
fields with the `struct` format `'<BBB'`. That format means little-endian, one
unsigned 8-bit item per field, in field order. `deserialize` unpacks a buffer
with the same format and builds a new record from it.

The model has two modules:

- `Struct` (`struct.dfy`) gives the observable semantics of `struct.pack` and
  `struct.unpack` for a format made only of `B` items.
  - Packing checks the number of values first.
  - It then checks each value against 0..255 in argument order, and raises at
    the first value out of range.
  - Unpacking checks that the buffer size equals the format size, then reads
    each byte as an unsigned integer.
  - Each Python `struct.error` becomes an `Err` value of type `StructError`,
    whose constructor says which of the three checks failed.
  - The `<` prefix changes nothing for one-byte items, so byte order is not modelled.
- `Codec` (`my_class.dfy`) holds the record as `datatype MyClass`. It defines
  `Serialize` and `Deserialize` on top of `Struct`, and proves the round trips
  and the sample vector from the end of the script.

Bytes are `Byte = x: int | 0 <= x < 256`, like the elements of a Python
`bytes` object. The fields are unbounded `int`s, as in Python. The code hands
the fields to `struct.pack`, which checks their range and raises, so the range
check is a real error path, not something excluded by a precondition.

## Model

| member | source | states |
|---|---|---|
| Struct.EncodeUnsignedChars | src/test.py:11-12 | packing `B` items succeeds exactly when every value is in 0..255; the bytes are then the values in order; otherwise packing fails at the first value out of range |
| Struct.DecodeUnsignedChars | src/test.py:17-18 | unpacking reads each byte, in order, as an integer in 0..255 equal to that byte |
| Struct.Pack | src/test.py:12 | `struct.pack` with n `B` items fails with an item-count error unless exactly n values are given; it succeeds exactly when, in addition, every value fits a byte, and then returns n bytes equal to the values |
| Struct.Unpack | src/test.py:18 | `struct.unpack` with n `B` items succeeds exactly when the buffer has n bytes; otherwise it fails with a buffer-size error; on success it returns n integers in 0..255 equal to the bytes |
| Struct.DecodeEncode | src/test.py:12-18 | decoding the bytes produced by encoding in-range values gives back the same values |
| Struct.EncodeDecode | src/test.py:12-18 | encoding the integers read from any byte buffer gives back the same buffer |
| Struct.UnpackPack | src/test.py:12-18 | for the same format, unpack after a successful pack returns the packed values |
| Struct.PackUnpack | src/test.py:12-18 | for the same format, pack after a successful unpack returns the original buffer |
| Codec.Serialize | src/test.py:9-12 | `serialize` succeeds exactly when a, b and c are all in 0..255; it then returns 3 bytes, with byte 0 = a, byte 1 = b and byte 2 = c; otherwise it fails at the first field out of range, checked in the order a, b, c |
| Codec.Deserialize | src/test.py:14-19 | `deserialize` succeeds exactly when the buffer has 3 bytes, and otherwise reports a buffer-size error; on success the record's fields are bytes 0, 1 and 2, each in 0..255 |
| Codec.RoundTrip | src/test.py:9-19 | every record whose fields fit in a byte serializes, and deserializing the result gives the same record |
| Codec.ReverseRoundTrip | src/test.py:12-18 | every 3-byte buffer deserializes, and serializing the result gives the same buffer |
| Codec.SerializeInjective | src/test.py:12 | two serializable records have the same encoding if and only if they are equal |
| Codec.SampleVector | src/test.py:21-28 | `MyClass(1, 2, 3)` serializes to the bytes 1, 2, 3, which deserialize to a=1, b=2, c=3 |
| Codec.BoundaryVectors | src/test.py:12-18 | field values 256 and -1 are rejected with a range error at that field; 2-byte and 4-byte buffers are rejected with a buffer-size error |

## Left out

- The script at the end of the file (src/test.py:21-29) builds the sample, prints it and decodes it. The printing is console output and is left out. The sample itself is stated as `Codec.SampleVector`.
- Non-integer arguments. Python lets a caller pass any object. `struct.pack` accepts objects that have `__index__`, such as `bool`, and raises `struct.error` for anything else. The model types the fields as `int`.
- Object identity. `deserialize` builds a fresh instance. Records are modelled as immutable values that are compared field by field.
- The internals of Python's `struct` module, including format-string parsing and every item code other than `B`. Only the observable behaviour of a `B`-only format is modelled.
- The error messages of `struct.error`. The model keeps only which check failed, as the `StructError` constructor, not the text.
- The fields `OutOfRange.value` and `BufferSize.got` of `StructError` carry the rejected value and the actual buffer length. Python's `struct.error` text does not include them; it says only that a `B` item needs 0 <= number <= 255, or that unpacking needs a buffer of the format's size. They are extra detail of the model, not something Python reports.

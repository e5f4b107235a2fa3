# Field serializer of a protobuf C# code generator

The generator reads `.proto` schemas and emits C# classes that serialize
and deserialize themselves. This project models two parts of it:

- **The field serializer.** It writes C# code for one field of a message:
  - the decoding statements that go inside the message's read loop;
  - the encoding statements that write the field's key and value.

  The choice depends on the field's rule (required, optional, repeated), its
  `packed` and `readonly` options, its type (a scalar builtin, an enum or a
  message held as class, struct or interface), its C# alias (`DateTime`,
  `TimeSpan`, an enum) and three generator options (`Nullable`, `Utc`,
  `SkipSerializeDefault`).
- **The message declaration (`ProtoMessage`).** This covers its serializer
  names, its wire type and constant wire size, the folds over its fields,
  and the recursive marking of a message and all its nested declarations as
  imported.

The emitted C# is kept as structure, not text:

- an `Op` is one leaf statement, such as a literal `WriteByte`, a runtime
  library call, a binary-writer write, an assignment of a decoded value or a
  throw;
- a `Stmt` is an `Op`, an `if`, a `foreach`, a `while` or a brace-less
  `if`/`else`;
- a `Line` is what the `CodeWriter` receives once the blocks are laid out.

Each generating method of `FieldSerializer` appends to the `CodeWriter`'s
line buffer. Each is proved to append exactly the layout of a specification
function (`FieldReaderCode`, `FieldWriterCode`, `KeyOps`, ...). A generation
error (`ProtoFormatException`, `NotImplementedException`) becomes a `Failure`
result.

`Run` gives meaning to the emitted statements. It runs them against one
field's run-time state (null, equal to its default, the number of list
elements) and an abstract input of decoded values with their byte sizes. The
result is a trace of writes, a thrown exception, or divergence. The lemmas
state, for every field and every state:

- what the encoder writes, and when it skips or throws;
- how the decoder reads, including the packed-length check;
- that the literal key bytes decode to the field number and wire type;
- that the read routine and the write statement chosen for each type belong
  together.

Modules:

- `WireFormat`: varints and field keys.
- `ProtoTypes`: rules, field types, scalars, wire types and sizes.
- `GeneratedCode`: the statements, the layout, the `CodeWriter` class and
  `Run`.
- `FieldSerializers`: the reader and writer synthesis and the
  `FieldSerializer` class.
- `SerializerProperties`: the run-time properties.
- `ProtoMessages`: the `ProtoMessage` and `ProtoEnum` classes.
- `Wrappers`: `Option` and `Result`.

## Model

| member | source | states |
|---|---|---|
| FieldSerializers.FieldSerializer.constructor | protobuf-master/CodeGenerator/CodeGenerator/FieldSerializer.cs:12-16 | The serializer keeps the code writer and options it was given. |
| FieldSerializers.FieldSerializer.FieldReader | protobuf-master/CodeGenerator/CodeGenerator/FieldSerializer.cs:20-102 | It appends exactly the layout of the field's decoding statements. It returns whether they end normally. On a generation error it returns that error, and the earlier output is kept as a prefix. |
| SerializerProperties.ReaderThrowCases | protobuf-master/CodeGenerator/CodeGenerator/FieldSerializer.cs:24-66 | The decoder ends abnormally exactly for a list of interfaces and for a readonly non-message field. Those two never fail at generation time, and their code is a single throw. |
| SerializerProperties.ReaderRunThrows | protobuf-master/CodeGenerator/CodeGenerator/FieldSerializer.cs:20-66 | Code reported as abnormal throws on every field state and input. Code reported as normal completes on a present field with a value to read. |
| SerializerProperties.PackedDecodeRun | protobuf-master/CodeGenerator/CodeGenerator/FieldSerializer.cs:35-46 | Packed decoding reads the byte length and sets `end` that far past the position after it, then appends elements while the position is before `end`. If the elements land exactly on `end`, all of them are appended and reading continues after them. If the last one runs past `end`, "read too many bytes" is thrown. |
| SerializerProperties.PackedLoopRun | protobuf-master/CodeGenerator/CodeGenerator/FieldSerializer.cs:40-42 | The packed `while` loop appends one element per value until the position reaches or passes `end`, and consumes exactly those values. |
| SerializerProperties.MessageDecodeRun | protobuf-master/CodeGenerator/CodeGenerator/FieldSerializer.cs:55-97 | A non-repeated message field is decoded as follows, on every field state. A readonly field merges into the existing value. A struct is assigned fresh under `Nullable` and decoded by reference otherwise. A class is decoded fresh when null and merged otherwise. An interface throws when null and merges otherwise. |
| SerializerProperties.RepeatedMessageDecode | protobuf-master/CodeGenerator/CodeGenerator/FieldSerializer.cs:35-51 | Each element of a repeated message field, packed or not, is decoded fresh with the message's serializer. |
| SerializerProperties.CodeTypeReading | protobuf-master/CodeGenerator/CodeGenerator/FieldSerializer.cs:107-149 | `DateTime` and `TimeSpan` aliases are accepted exactly on uint64, int64, fixed64 and sfixed64, and wrap the read in a conversion from ticks (honouring `Utc`). On any other type they are a format error. Any other alias is cast to, keeping success and error as they were. No alias leaves the read unchanged. |
| SerializerProperties.ScalarCodecsAgree | protobuf-master/CodeGenerator/CodeGenerator/FieldSerializer.cs:151-210 | For a builtin or enum field, the reader and the writer succeed for the same types. An unknown builtin name is a format error when reading and unimplemented when writing. Otherwise the single read routine and the single write statement are a matching pair, and the read consumes the wire type that the key announces. |
| SerializerProperties.ScalarPairs | protobuf-master/CodeGenerator/CodeGenerator/FieldSerializer.cs:444-471 | For each of the fifteen scalar types, the read expression and the write statement form a matching pair and use that scalar's wire type. |
| SerializerProperties.MessageCodecsAgree | protobuf-master/CodeGenerator/CodeGenerator/FieldSerializer.cs:433-442 | A message field is read and written by the same serializer. It is written as a length-delimited record: the message goes into the cleared scratch buffer, then its length and its bytes follow. |
| ProtoTypes.ScalarNameRoundTrip | protobuf-master/CodeGenerator/CodeGenerator/FieldSerializer.cs:172-205 | Builtin names and the fifteen scalar types correspond one to one. Every other name is unknown. |
| FieldSerializers.FieldSerializer.KeyWriter | protobuf-master/CodeGenerator/CodeGenerator/FieldSerializer.cs:216-222 | It appends the field key as literal varint bytes. The key is the field number shifted left by three bits in 32-bit arithmetic, with the wire type's number in the low three bits. |
| SerializerProperties.KeyWrittenLiterally | protobuf-master/CodeGenerator/CodeGenerator/FieldSerializer.cs:216-222 | For every legal field number, the key is one to five literal `WriteByte` statements to the given stream. Their bytes decode as one varint, which divided by 8 gives the field number and modulo 8 gives the wire type. |
| WireFormat.KeyRoundTrip | protobuf-master/CodeGenerator/CodeGenerator/FieldSerializer.cs:218-221 | The key bytes of a legal field number decode back to the key, and stop exactly at its end. |
| FieldSerializers.FieldSerializer.VarintWriter | protobuf-master/CodeGenerator/CodeGenerator/FieldSerializer.cs:227-243 | The loop appends exactly one `WriteByte` per base-128 digit of the value, low digit first. |
| WireFormat.VarintBytes | protobuf-master/CodeGenerator/CodeGenerator/FieldSerializer.cs:227-243 | A varint is at least one byte long. Every byte but the last has the continuation bit, and the last does not. |
| WireFormat.VarintRoundTrip | protobuf-master/CodeGenerator/CodeGenerator/FieldSerializer.cs:227-243 | Decoding the bytes of a value gives the value back, and consumes exactly those bytes, whatever follows them. |
| WireFormat.VarintLengthBounds | protobuf-master/CodeGenerator/CodeGenerator/FieldSerializer.cs:227-243 | A 32-bit value takes at most five varint bytes. A 64-bit value takes at most ten. |
| SerializerProperties.VarintWriterBytes | protobuf-master/CodeGenerator/CodeGenerator/FieldSerializer.cs:227-243 | The `WriteByte` statements for a `uint` are one to five. All but the last carry the continuation bit, and the bytes read back as the value. |
| FieldSerializers.FieldSerializer.BytesWriter | protobuf-master/CodeGenerator/CodeGenerator/FieldSerializer.cs:248-272 | It appends the scratch buffer's length as a `uint`, then the buffer itself, to the given stream. |
| FieldSerializers.FieldSerializer.FieldWriter | protobuf-master/CodeGenerator/CodeGenerator/FieldSerializer.cs:277-396 | It appends exactly the layout of the field's encoding statements, chosen by rule. On a generation error it returns that error, and the earlier output is kept as a prefix. |
| FieldSerializers.FieldSerializer.RepeatedWriter | protobuf-master/CodeGenerator/CodeGenerator/FieldSerializer.cs:279-326 | For a repeated field, it appends exactly the encoding of the packed or unpacked list. |
| FieldSerializers.FieldSerializer.PackedBufferedWriter | protobuf-master/CodeGenerator/CodeGenerator/FieldSerializer.cs:281-301 | For a packed field of variable-size elements, it appends the layout of the buffered encoding. |
| FieldSerializers.FieldSerializer.PackedFixedWriter | protobuf-master/CodeGenerator/CodeGenerator/FieldSerializer.cs:302-315 | For a packed field of constant-size elements, it appends the layout of the direct encoding. |
| SerializerProperties.RepeatedEncodeRun | protobuf-master/CodeGenerator/CodeGenerator/FieldSerializer.cs:316-325 | An unpacked list writes nothing when null. Otherwise it writes the key, with the element type's wire type, and the value once per element, in order. |
| SerializerProperties.PackedFixedEncodeRun | protobuf-master/CodeGenerator/CodeGenerator/FieldSerializer.cs:281-315 | A packed list of constant-size elements writes nothing when null. Otherwise it writes one length-delimited key and the length `size * Count`, then each element directly to the stream. |
| SerializerProperties.PackedBufferedEncodeRun | protobuf-master/CodeGenerator/CodeGenerator/FieldSerializer.cs:281-301 | A packed list of variable-size elements writes nothing when null. Otherwise it writes one length-delimited key, clears the scratch buffer `msField`, declares the binary writer `bw<id>` on `ms<id>` when the field uses one, writes each element into `msField`, then writes the buffer's length and contents. |
| FieldSerializers.FieldSerializer.OptionalWriter | protobuf-master/CodeGenerator/CodeGenerator/FieldSerializer.cs:328-381 | For an optional field, it appends exactly the encoding behind a null check, behind a default check, or unguarded. |
| SerializerProperties.NullableEncodeRun | protobuf-master/CodeGenerator/CodeGenerator/FieldSerializer.cs:330-351 | Under `Nullable`, and for message, string or bytes fields, the field is skipped exactly when it is null and its type or the option makes it nullable. Otherwise its key and value are written, through `.Value` when only the option makes it nullable. |
| SerializerProperties.DefaultEncodeRun | protobuf-master/CodeGenerator/CodeGenerator/FieldSerializer.cs:352-380 | Any other optional field is skipped exactly when `SkipSerializeDefault` is on, a default is declared and the value equals it. Otherwise its key and value are written. |
| FieldSerializers.FieldSerializer.RequiredWriter | protobuf-master/CodeGenerator/CodeGenerator/FieldSerializer.cs:382-394 | For a required field, it appends exactly the null check when the type can be null, then the key and the value. |
| SerializerProperties.RequiredEncodeRun | protobuf-master/CodeGenerator/CodeGenerator/FieldSerializer.cs:382-394 | A required message that is not a struct, or a required string or bytes field, throws "is required" when null. Every other case writes the key and the value. |
| FieldSerializers.FieldSerializer.FieldWriterType | protobuf-master/CodeGenerator/CodeGenerator/FieldSerializer.cs:398-424 | It appends the statements that write the value. A `DateTime` value becomes its ticks (universal ticks under `Utc`), and a `TimeSpan` value becomes its ticks. On an unwritable type it returns the error and appends nothing. |
| SerializerProperties.TicksCodecsAgree | protobuf-master/CodeGenerator/CodeGenerator/FieldSerializer.cs:398-424 | For a `DateTime` or `TimeSpan` field of a 64-bit type, the writer writes the value's ticks, converted to universal time first exactly when `Utc` is on. The reader rebuilds the value from the ticks it reads, marked as UTC under the same option. The tick read and the tick write are a matching pair. |
| SerializerProperties.ValueWrites | protobuf-master/CodeGenerator/CodeGenerator/FieldSerializer.cs:426-474 | A value is written only by statements that write: they never read input and never throw. |
| GeneratedCode.LinesBalanced | protobuf-master/CodeGenerator/CodeGenerator/FieldSerializer.cs:284-324 | Laid out, every emitted statement list closes each block it opens (`IfBracket`, `ForeachBracket`, `WhileBracket` against `EndBracket`), and never closes a block that is not open. |
| ProtoMessages.ProtoMessage.WireType | protobuf-master/CodeGenerator/Proto/ProtoMessage.cs:8-11 | A message is always framed as length-delimited. |
| ProtoMessages.FieldTable | protobuf-master/CodeGenerator/Proto/ProtoMessage.cs:15 | The field table has exactly the declared field numbers as keys, and maps each to its field. |
| ProtoMessages.FieldTableValues | protobuf-master/CodeGenerator/Proto/ProtoMessage.cs:64-70 | The values of the field table are exactly the fields of the sequence. So the loops over `fields` visit what the source's `foreach` over `Fields.Values` visits. |
| ProtoMessages.ProtoMessage.SerializerType | protobuf-master/CodeGenerator/Proto/ProtoMessage.cs:19-32 | External and interface messages get a separate `...Serializer` class name. Every other message serializes in its own class. |
| ProtoMessages.ProtoMessage.FullSerializerType | protobuf-master/CodeGenerator/Proto/ProtoMessage.cs:34-47 | As `SerializerType`, but applied to the full type name. |
| ProtoMessages.SerializerNamesShareNamespace | protobuf-master/CodeGenerator/Proto/ProtoMessage.cs:19-47 | The full serializer name is the short one under the namespace that the full type name adds. |
| ProtoMessages.ProtoMessage.constructor | protobuf-master/CodeGenerator/Proto/ProtoMessage.cs:49-53 | A new message is a class, not external, with no buffer size and not imported. Its declarations form a valid tree. |
| ProtoMessages.ProtoMessage.IsUsingBinaryWriter | protobuf-master/CodeGenerator/Proto/ProtoMessage.cs:60-74 | True exactly when some field uses the binary writer. |
| ProtoMessages.ProtoMessage.MaxFieldBufferSize | protobuf-master/CodeGenerator/Proto/ProtoMessage.cs:79-93 | A positive declared buffer size wins. Otherwise the result is the largest field buffer size, or 0. |
| ProtoMessages.MaxBufferSizeScan | protobuf-master/CodeGenerator/Proto/ProtoMessage.cs:86-92 | The result is non-negative, no field exceeds it, and it is 0 or the size of some field. |
| ProtoMessages.ProtoMessage.WireSize | protobuf-master/CodeGenerator/Proto/ProtoMessage.cs:98-114 | The loop returns the message's constant size as `FieldsWireSize` defines it. |
| ProtoMessages.FieldsWireSize | protobuf-master/CodeGenerator/Proto/ProtoMessage.cs:98-114 | The size is -1 exactly when some field has a variable size. Otherwise it is the non-negative sum of the field sizes. |
| ProtoMessages.MessageFieldType | protobuf-master/CodeGenerator/Proto/ProtoMessage.cs:8-114 | A field of a message type sees the message's wire type (lines 8-11), its constant size (lines 98-114) and its full serializer name (lines 34-47). Under this model's reading of `ProtoType.Nullable` (see "Left out"), the field is nullable exactly when the message is not a struct. |
| ProtoMessages.ProtoMessage.MarkImported | protobuf-master/CodeGenerator/Proto/ProtoMessage.cs:116-129 | The message, every message nested in it at any depth, and every enum declared in any of them end up imported. Only the `imported` flags change: each touched message keeps its representation, external flag and buffer size. |
| ProtoMessages.ProtoMessage.MarkNestedMessages | protobuf-master/CodeGenerator/Proto/ProtoMessage.cs:120-123 | The loop over the nested messages leaves every message below this one imported, and every enum below it imported unless it is declared directly in this message. It changes only `imported` flags. |
| ProtoMessages.ProtoMessage.MarkOwnEnums | protobuf-master/CodeGenerator/Proto/ProtoMessage.cs:125-128 | The loop over the enums declared in this message leaves each of them imported, and changes nothing else. |

## Left out

- The text of the emitted C# is not modelled: indentation, comments, `cw.Comment` lines and literal punctuation. Statements are kept as structure, and a `CodeWriter` line holds one statement or one block boundary.
- The runtime library (`ProtocolParser`, `BinaryReader`/`BinaryWriter`, `Serialize`/`DeserializeLengthDelimited` of other messages) is a set of named operations. Floating-point values, UTF-8 encoding and `DateTime` ticks are tags on the written value.
- `Run` reads a decoded value as one chunk of input with a given byte size. It does not decode bytes, so each read routine is only paired with its write statement (`ScalarCodecsAgree`), not proved to be its inverse.
- The commented-out variants of `BytesWriter` (FieldSerializer.cs:252-266) are not modelled.
- Parsing of `.proto` files and of options is not part of this model (`Options.cs` is read only for the three flags it sets). The structure of a message (fields, nested messages and enums) is fixed when it is built.
- The base class `ProtoType`, `ProtoBuiltin`, `ProtoEnum` and `Field` are not part of this model beyond what the serializer asks of them. The builtin wire types and sizes follow the protobuf encoding table: 8 bytes for double/fixed64/sfixed64, 4 for float/fixed32/sfixed32, variable otherwise. An unknown builtin name is taken as a varint of variable size. `Field.IsUsingBinaryWriter` and `Field.BufferSizeScan` are given values of the field.
- Field types are a closed set (builtin, enum, message), so the `NotImplementedException` for any other kind of type (FieldSerializer.cs:209) cannot arise. The exception for an unknown rule (FieldSerializer.cs:395) cannot arise either.
- The separate enum branch of the optional writer (FieldSerializer.cs:352-367) is merged with the general branch that follows it, because both emit the same statements.
- The default literal (`FormatDefaultForTypeAssignment`) is kept as the declared text.
- `ProtoEnum` keeps only its names and the `imported` flag that `MarkImported` sets. `ProtoMessage.ToString` and `Comments` are not modelled.
- FieldSerializers.FieldSerializer.FieldReader, FieldWriter, RepeatedWriter, PackedBufferedWriter, PackedFixedWriter, OptionalWriter and RequiredWriter: after a generation error the contract says only that the earlier output is kept as a prefix. The exception abandons whatever was partly written.
- FieldSerializers.FieldSerializer.FieldWriter: it is split into one helper method per rule (`RepeatedWriter`, `OptionalWriter`, `RequiredWriter`), and the packed cases into two more. The lines they append are those of the single source method.
- SerializerProperties.ReaderRunThrows: normal code is shown to complete on one present field with one value to read, not on every input. Any read can still fail at the end of the input.
- SerializerProperties.MessageDecodeRun: it is stated for fields without a C# alias. Aliases are covered separately by `CodeTypeReading`.
- SerializerProperties.RepeatedMessageDecode: it is stated for fields without a C# alias, for the same reason.
- SerializerProperties.PackedDecodeRun: it covers inputs whose elements reach the packed end. Running out of input before that raises end-of-stream in the model, and no lemma states it.
- SerializerProperties.KeyWrittenLiterally: the round trip is stated for legal field numbers (1 to 2^29-1). `Key` itself computes the 32-bit wrap-around for every `int`.
- ProtoMessages.ProtoMessage.WireSize: it uses unbounded integers, so the C# `int` overflow of a very large sum is not modelled.
- FieldSerializers.FieldSerializer.FieldWriterType: like the source, it does not check that a `DateTime` or `TimeSpan` field is 64-bit. Only the reader rejects other widths.
- `ProtoType.Nullable` is not part of this model (FieldSerializer.cs:337, 343 and 345 read it). `TypeNullable` takes it to be true for string, bytes and any message not held as a struct, and false for every other builtin and for enums.
- The enum's `WireType` and `WireSize` are not part of this model. An enum field is taken to be a varint of variable size (wire size -1).
- ProtoMessages.ProtoMessage.WireSize: a message-typed field contributes the wire size recorded in its `MessageSymbol`, a given value. In the source, `f.ProtoType.WireSize` (ProtoMessage.cs:105, 110) is the same recursive getter on the field's message. A message that contains itself, directly or through other messages, with only constant-size fields before that field therefore recurses without end there. The model does not capture this.
- ProtoMessages.ProtoMessage.MarkImported: nested messages are not assumed to be shared-free beyond the tree invariant `Valid`. The order in which the source visits the dictionary values is not modelled.

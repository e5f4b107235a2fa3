/**
 * The schema entities the field serializer queries: the field rule, the
 * representation chosen for a message, the resolved type of a field and the
 * field itself. A field sees the message it refers to only through that
 * message's symbol, whose wire size is a given value.
 */
module ProtoTypes {
  import opened Wrappers
  import opened WireFormat

  datatype Rule = Required | Optional | Repeated

  /** The message representation option: "class" (the default), "struct" or "interface". */
  datatype OptionType = Class | Struct | Interface

  /**
   * What a field knows of the message it refers to: the name of its
   * serializer (FullSerializerType), its representation and its constant
   * wire size (-1 when variable).
   */
  datatype MessageSymbol = MessageSymbol(fullSerializerType: string, optionType: OptionType, wireSize: int)

  /** The resolved type of a field. */
  datatype ProtoType =
    | Builtin(protoName: string)
    | EnumType(fullCsType: string)
    | MessageType(symbol: MessageSymbol)

  /**
   * One field of a message. `optionCodeType` is the C# type alias
   * ("DateTime", "TimeSpan" or an enum name), `optionDefault` the default
   * literal; `isUsingBinaryWriter` and `bufferSizeScan` are answers of the
   * field that this model takes as given.
   */
  datatype Field = Field(
    id: int,
    rule: Rule,
    protoType: ProtoType,
    csName: string,
    optionPacked: bool,
    optionReadOnly: bool,
    optionCodeType: Option<string>,
    optionDefault: Option<string>,
    isUsingBinaryWriter: bool,
    bufferSizeScan: int)

  /** The fifteen scalar types of the protobuf language. */
  datatype Scalar =
    | ProtoDouble | ProtoFloat
    | ProtoInt32 | ProtoInt64 | ProtoUInt32 | ProtoUInt64 | ProtoSInt32 | ProtoSInt64
    | ProtoFixed32 | ProtoFixed64 | ProtoSFixed32 | ProtoSFixed64
    | ProtoBool | ProtoString | ProtoBytes

  /** The name of a scalar type in a schema. */
  function ScalarName(s: Scalar): string
  {
    match s
    case ProtoDouble => "double"
    case ProtoFloat => "float"
    case ProtoInt32 => "int32"
    case ProtoInt64 => "int64"
    case ProtoUInt32 => "uint32"
    case ProtoUInt64 => "uint64"
    case ProtoSInt32 => "sint32"
    case ProtoSInt64 => "sint64"
    case ProtoFixed32 => "fixed32"
    case ProtoFixed64 => "fixed64"
    case ProtoSFixed32 => "sfixed32"
    case ProtoSFixed64 => "sfixed64"
    case ProtoBool => "bool"
    case ProtoString => "string"
    case ProtoBytes => "bytes"
  }

  /** The scalar type a builtin name stands for, and None for a name the language does not have. */
  function ScalarOf(name: string): Option<Scalar>
  {
    if name == "double" then Some(ProtoDouble)
    else if name == "float" then Some(ProtoFloat)
    else if name == "int32" then Some(ProtoInt32)
    else if name == "int64" then Some(ProtoInt64)
    else if name == "uint32" then Some(ProtoUInt32)
    else if name == "uint64" then Some(ProtoUInt64)
    else if name == "sint32" then Some(ProtoSInt32)
    else if name == "sint64" then Some(ProtoSInt64)
    else if name == "fixed32" then Some(ProtoFixed32)
    else if name == "fixed64" then Some(ProtoFixed64)
    else if name == "sfixed32" then Some(ProtoSFixed32)
    else if name == "sfixed64" then Some(ProtoSFixed64)
    else if name == "bool" then Some(ProtoBool)
    else if name == "string" then Some(ProtoString)
    else if name == "bytes" then Some(ProtoBytes)
    else None
  }

  /** Names and scalar types correspond one to one. */
  lemma ScalarNameRoundTrip(name: string, s: Scalar)
    ensures ScalarOf(name) == Some(s) <==> name == ScalarName(s)
  {
  }

  /** The scalar type of `t`, when it is a known builtin. */
  function ScalarType(t: ProtoType): Option<Scalar> {
    if t.Builtin? then ScalarOf(t.protoName) else None
  }

  predicate IsScalar(t: ProtoType, s: Scalar) {
    ScalarType(t) == Some(s)
  }

  predicate IsInterface(t: ProtoType) {
    t.MessageType? && t.symbol.optionType == Interface
  }

  /** The wire type of a scalar: fixed 64 or 32 bits, length-delimited for string and bytes, varint otherwise. */
  function ScalarWire(s: Scalar): WireType
  {
    match s
    case ProtoDouble | ProtoFixed64 | ProtoSFixed64 => Fixed64
    case ProtoFloat | ProtoFixed32 | ProtoSFixed32 => Fixed32
    case ProtoString | ProtoBytes => LengthDelimited
    case _ => Varint
  }

  /** The wire type a value of type `t` is framed with. */
  function WireTypeOf(t: ProtoType): WireType
  {
    match t
    case Builtin(name) => if ScalarOf(name).Some? then ScalarWire(ScalarOf(name).value) else Varint
    case EnumType(_) => Varint
    case MessageType(_) => LengthDelimited
  }

  /** The constant encoded size of a value of type `t`, or -1 when it varies. */
  function WireSizeOf(t: ProtoType): int
  {
    match t
    case Builtin(_) =>
      if WireTypeOf(t) == Fixed64 then 8
      else if WireTypeOf(t) == Fixed32 then 4
      else -1
    case EnumType(_) => -1
    case MessageType(symbol) => symbol.wireSize
  }

  /** Whether a C# value of type `t` can be null (string, bytes, a message not held as a struct). */
  predicate TypeNullable(t: ProtoType) {
    match t
    case Builtin(_) => IsScalar(t, ProtoString) || IsScalar(t, ProtoBytes)
    case EnumType(_) => false
    case MessageType(symbol) => symbol.optionType != Struct
  }

  /** Field numbers are unique within a message. */
  ghost predicate UniqueIds(fields: seq<Field>) {
    forall i, j :: 0 <= i < j < |fields| ==> fields[i].id != fields[j].id
  }
}

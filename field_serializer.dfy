/**
 * Per-field code synthesis: for one field and the generator options, the
 * statements that decode the field inside a message's read loop and the
 * statements that encode it. The pure parts (which expression reads a
 * value, which call writes one) are functions; the parts that append to the
 * output buffer are methods of `FieldSerializer`, each proved to append
 * exactly what a specification function (`...Code`, `...Ops`) describes.
 */
module FieldSerializers {
  import opened Wrappers
  import opened WireFormat
  import opened ProtoTypes
  import opened GeneratedCode

  /** The three generator options the field serializer consults. */
  datatype Options = Options(nullable: bool, utc: bool, skipSerializeDefault: bool)

  /** Why a schema cannot be compiled (a ProtoFormatException). */
  datatype FormatError =
    | DateTimeNot64Bit
    | TimeSpanNot64Bit
    | UnknownBuiltin(name: string)

  /** A generation-time exception. */
  datatype GenError = ProtoFormat(reason: FormatError) | NotImplemented

  /** The proto types that may carry the DateTime and TimeSpan aliases. */
  predicate IsSixtyFourBitInteger(t: ProtoType) {
    IsScalar(t, ProtoUInt64) || IsScalar(t, ProtoInt64) || IsScalar(t, ProtoFixed64) || IsScalar(t, ProtoSFixed64)
  }

  // ---------------------------------------------------------------------------------------------
  // Reading

  /**
   * The expression that reads one value of the field's type. A message is
   * decoded fresh for a repeated field or when no target is given, and into
   * the target otherwise.
   */
  function FieldReaderPrimitive(f: Field, instance: Option<Target>): Result<Expr, GenError>
  {
    match f.protoType
    case MessageType(symbol) =>
      if f.rule == Repeated || instance.None? then Success(DecodeFresh(symbol.fullSerializerType))
      else Success(DecodeInto(symbol.fullSerializerType, instance.value))
    case EnumType(fullCsType) => Success(Cast(fullCsType, Read(ReadUInt64)))
    case Builtin(name) =>
      match ScalarOf(name)
      case None => Failure(ProtoFormat(UnknownBuiltin(name)))
      case Some(s) => Success(ScalarReader(s))
  }

  /** The expression that reads one value of a scalar type. */
  function ScalarReader(s: Scalar): Expr
  {
    match s
    case ProtoDouble => Read(BinaryDouble)
    case ProtoFloat => Read(BinarySingle)
    case ProtoInt32 => Cast("int", Read(ReadUInt64))     // a 64-bit varint on the wire
    case ProtoInt64 => Cast("long", Read(ReadUInt64))
    case ProtoUInt32 => Read(ReadUInt32)
    case ProtoUInt64 => Read(ReadUInt64)
    case ProtoSInt32 => Read(ReadZInt32)
    case ProtoSInt64 => Read(ReadZInt64)
    case ProtoFixed32 => Read(BinaryUInt32)
    case ProtoFixed64 => Read(BinaryUInt64)
    case ProtoSFixed32 => Read(BinaryInt32)
    case ProtoSFixed64 => Read(BinaryInt64)
    case ProtoBool => Read(ReadBool)
    case ProtoString => Read(ReadString)
    case ProtoBytes => Read(ReadBytes)
  }

  /**
   * The read expression with the field's code type applied: DateTime and
   * TimeSpan wrap the 64-bit read, any other code type is taken as an enum
   * and cast to.
   */
  function FieldReaderType(f: Field, options: Options, instance: Option<Target>): Result<Expr, GenError>
  {
    match f.optionCodeType
    case None => FieldReaderPrimitive(f, instance)
    case Some(codeType) =>
      if codeType == "DateTime" then
        if IsSixtyFourBitInteger(f.protoType) then
          var e :- FieldReaderPrimitive(f, instance);
          Success(NewDateTime(Cast("long", e), options.utc))
        else Failure(ProtoFormat(DateTimeNot64Bit))
      else if codeType == "TimeSpan" then
        if IsSixtyFourBitInteger(f.protoType) then
          var e :- FieldReaderPrimitive(f, instance);
          Success(NewTimeSpan(Cast("long", e)))
        else Failure(ProtoFormat(TimeSpanNot64Bit))
      else
        var e :- FieldReaderPrimitive(f, instance);
        Success(Cast(codeType, e))
  }

  /** Decoding code for one field, and whether it ends normally (false: it is a bare throw). */
  datatype Emitted = Emitted(code: seq<Stmt>, normal: bool)

  /** The statements of a packed repeated field: read the byte length, then elements until it is used up. */
  function PackedReaderCode(id: int, list: string, e: Expr): seq<Stmt> {
    [Do(DeclareEnd(id)), Do(AdvanceEnd(id)),
     While(BeforeEnd(id), [Do(AddTo(list, e))]),
     IfThen(NotAtEnd(id), Throw(PackedOvershoot))]
  }

  /** What `FieldReader` appends for field `f`. */
  function FieldReaderCode(f: Field, options: Options): Result<Emitted, GenError>
  {
    var t := f.protoType;
    var name := f.csName;
    if f.rule == Repeated then
      if IsInterface(t) then Success(Emitted([Do(Throw(ListOfInterfaces))], false))
      else
        var e :- FieldReaderType(f, options, None);
        if f.optionPacked then Success(Emitted(PackedReaderCode(f.id, name, e), true))
        else Success(Emitted([Do(AddTo(name, e))], true))
    else if f.optionReadOnly then
      if t.MessageType? then
        var e :- FieldReaderType(f, options, Some(Member(name)));
        Success(Emitted([Do(Evaluate(e))], true))
      else Success(Emitted([Do(Throw(ReadOnlyPrimitive))], false))
    else if t.MessageType? then
      if t.symbol.optionType == Struct then
        if options.nullable then
          var e :- FieldReaderType(f, options, None);
          Success(Emitted([Do(Assign(name, e))], true))
        else
          var e :- FieldReaderType(f, options, Some(RefMember(name)));
          Success(Emitted([Do(Evaluate(e))], true))
      else
        var whenNull :-
          if t.symbol.optionType == Interface then Success(Throw(NullInterface))
          else
            var e :- FieldReaderType(f, options, None);
            Success(Assign(name, e));
        var merge :- FieldReaderType(f, options, Some(Member(name)));
        Success(Emitted([IfElse(IsNull(name), whenNull, Evaluate(merge))], true))
    else
      var e :- FieldReaderType(f, options, Some(Member(name)));
      Success(Emitted([Do(Assign(name, e))], true))
  }

  // ---------------------------------------------------------------------------------------------
  // Writing

  /** One literal `WriteByte` per byte. */
  function ByteOps(sink: Sink, bs: seq<byte>): seq<Op>
  {
    if bs == [] then [] else [WriteByte(sink, bs[0])] + ByteOps(sink, bs[1..])
  }

  /** The key of a field, written as literal bytes. */
  function KeyOps(sink: Sink, id: int, wire: WireType): seq<Op> {
    ByteOps(sink, KeyBytes(id, wire))
  }

  /** The scratch buffer written out with its length in front. */
  function BytesWriterOps(id: int, sink: Sink): seq<Op> {
    [DeclareLength(id), Write(sink, WriteUInt32(LengthOf(id))), CopyBuffer(sink)]
  }

  /** The statements that write value `v` of the field's type. */
  function FieldWriterPrimitive(f: Field, sink: Sink, writer: BinaryWriterName, v: Value): Result<seq<Op>, GenError>
  {
    match f.protoType
    case EnumType(_) => Success([Write(sink, WriteUInt64(v, true))])
    case MessageType(symbol) =>
      Success([ClearBuffer, Serialize(symbol.fullSerializerType, v)] + BytesWriterOps(f.id, sink))
    case Builtin(name) =>
      match ScalarOf(name)
      case None => Failure(NotImplemented)
      case Some(s) => Success([ScalarWriter(s, sink, writer, v)])
  }

  /** The statement that writes value `v` of a scalar type. */
  function ScalarWriter(s: Scalar, sink: Sink, writer: BinaryWriterName, v: Value): Op
  {
    match s
    case ProtoDouble | ProtoFloat | ProtoFixed32 | ProtoFixed64 | ProtoSFixed32 | ProtoSFixed64 =>
      BinaryWrite(writer, v)
    case ProtoInt32 | ProtoInt64 => Write(sink, WriteUInt64(v, true))   // a 64-bit varint on the wire
    case ProtoUInt32 => Write(sink, WriteUInt32(v))
    case ProtoUInt64 => Write(sink, WriteUInt64(v, false))
    case ProtoSInt32 => Write(sink, WriteZInt32(v))
    case ProtoSInt64 => Write(sink, WriteZInt64(v))
    case ProtoBool => Write(sink, WriteBool(v))
    case ProtoString => Write(sink, WriteBytes(v, true))
    case ProtoBytes => Write(sink, WriteBytes(v, false))
  }

  /** The value `FieldWriterType` hands on: DateTime and TimeSpan values are written as their ticks. */
  function TypedValue(f: Field, options: Options, v: Value): Value
  {
    if f.optionCodeType == Some("DateTime") then (if options.utc then UtcTicks(v) else Ticks(v))
    else if f.optionCodeType == Some("TimeSpan") then Ticks(v)
    else v
  }

  /** What `FieldWriterType` appends. */
  function FieldWriterTypeCode(f: Field, options: Options, sink: Sink, writer: BinaryWriterName, v: Value)
    : Result<seq<Op>, GenError>
  {
    FieldWriterPrimitive(f, sink, writer, TypedValue(f, options, v))
  }

  /** An optional field is written inside a null check when its type is nullable or the `Nullable` option is on. */
  predicate NullGuarded(t: ProtoType, options: Options) {
    TypeNullable(t) || options.nullable
  }

  /** Optional fields that are handled by the nullable branch, which comes before the default check. */
  predicate NullableBranch(t: ProtoType, options: Options) {
    options.nullable || t.MessageType? || IsScalar(t, ProtoString) || IsScalar(t, ProtoBytes)
  }

  /** Required fields whose C# value can be null and is therefore checked first. */
  predicate RequiredChecked(t: ProtoType) {
    (t.MessageType? && t.symbol.optionType != Struct) || IsScalar(t, ProtoString) || IsScalar(t, ProtoBytes)
  }

  /** What `FieldWriter` appends for field `f`. */
  function FieldWriterCode(f: Field, options: Options): Result<seq<Stmt>, GenError>
  {
    match f.rule
    case Repeated => RepeatedWriterCode(f, options)
    case Optional => OptionalWriterCode(f, options)
    case Required => RequiredWriterCode(f, options)
  }

  /** A repeated field: packed under one length-delimited key, or one key per element. */
  function RepeatedWriterCode(f: Field, options: Options): Result<seq<Stmt>, GenError>
  {
    var t := f.protoType;
    var name := f.csName;
    if f.optionPacked then
      if WireSizeOf(t) < 0 then
        var elem :- FieldWriterTypeCode(f, options, MsField, OwnWriter(f.id), Element(f.id));
        var setup := [ClearBuffer] + (if f.isUsingBinaryWriter then [NewBinaryWriter(f.id)] else []);
        Success([If(NotNull(name),
                    Simple(KeyOps(Stream, f.id, LengthDelimited) + setup)
                    + [ForEach(f.id, name, Simple(elem))]
                    + Simple(BytesWriterOps(f.id, Stream)))])
      else
        var elem :- FieldWriterTypeCode(f, options, Stream, SharedWriter, Element(f.id));
        var size := Write(Stream, WriteUInt32(PackedSize(WireSizeOf(t), name)));
        Success([If(NotNull(name),
                    Simple(KeyOps(Stream, f.id, LengthDelimited) + [size])
                    + [ForEach(f.id, name, Simple(elem))])])
    else
      var elem :- FieldWriterTypeCode(f, options, Stream, SharedWriter, Element(f.id));
      Success([If(NotNull(name), [ForEach(f.id, name, Simple(KeyOps(Stream, f.id, WireTypeOf(t)) + elem))])])
  }

  /** An optional field: behind a null check, behind a default check, or unconditionally. */
  function OptionalWriterCode(f: Field, options: Options): Result<seq<Stmt>, GenError>
  {
    var t := f.protoType;
    var name := f.csName;
    if NullableBranch(t, options) then
      var needValue := !TypeNullable(t) && options.nullable;
      var v := if needValue then NullableValue(InstanceMember(name)) else InstanceMember(name);
      var value :- FieldWriterTypeCode(f, options, Stream, SharedWriter, v);
      var body := Simple(KeyOps(Stream, f.id, WireTypeOf(t)) + value);
      Success(if NullGuarded(t, options) then [If(NotNull(name), body)] else body)
    else
      // The source has a separate branch for enums here; it emits the same statements.
      var skip := options.skipSerializeDefault && f.optionDefault.Some?;
      var value :- FieldWriterTypeCode(f, options, Stream, SharedWriter, InstanceMember(name));
      var body := Simple(KeyOps(Stream, f.id, WireTypeOf(t)) + value);
      Success(if skip then [If(NotDefault(name, f.optionDefault.value), body)] else body)
  }

  /** A required field: a null check that throws, for the types that can be null, then key and value. */
  function RequiredWriterCode(f: Field, options: Options): Result<seq<Stmt>, GenError>
  {
    var t := f.protoType;
    var name := f.csName;
    var value :- FieldWriterTypeCode(f, options, Stream, SharedWriter, InstanceMember(name));
    var check := if RequiredChecked(t) then [IfThen(IsNull(name), Throw(RequiredMissing(name)))] else [];
    Success(check + Simple(KeyOps(Stream, f.id, WireTypeOf(t)) + value))
  }

  lemma {:induction false} ByteOpsAppend(sink: Sink, a: seq<byte>, b: seq<byte>)
    ensures ByteOps(sink, a + b) == ByteOps(sink, a) + ByteOps(sink, b)
    decreases a
  {
    if a == [] {
      assert a + b == b;
    } else {
      assert (a + b)[0] == a[0];
      assert (a + b)[1..] == a[1..] + b;
      ByteOpsAppend(sink, a[1..], b);
    }
  }

  /** One step of `VarintWriter`: the low seven bits, with the continuation bit when more follow. */
  lemma VarintDigit(v: nat)
    ensures v / 128 == 0 ==> VarintBytes(v) == [v % 128]
    ensures v / 128 != 0 ==> VarintBytes(v) == [v % 128 + 128] + VarintBytes(v / 128)
  {
  }

  /** Bookkeeping of `VarintWriter`'s loop: one more byte written, the rest still to come. */
  lemma VarintWritten(sink: Sink, written: seq<byte>, b: byte, rest: seq<byte>, start: seq<Line>)
    ensures start + Emits(ByteOps(sink, written + [b])) == (start + Emits(ByteOps(sink, written))) + [Emit(WriteByte(sink, b))]
    ensures written + ([b] + rest) == (written + [b]) + rest
  {
    ByteOpsAppend(sink, written, [b]);
    assert ByteOps(sink, [b]) == [WriteByte(sink, b)];
    EmitsAppend(ByteOps(sink, written), [WriteByte(sink, b)]);
    EmitsOne(WriteByte(sink, b));
    Assoc(start, Emits(ByteOps(sink, written)), [Emit(WriteByte(sink, b))]);
  }

  // Layout lemmas: the lines of each emitted shape, in the order the methods write them.

  lemma EmitsOne(op: Op)
    ensures Emits([op]) == [Emit(op)]
  {
    assert [op][1..] == [];
  }

  lemma LinesOne(s: Stmt)
    ensures Lines([s]) == StmtLines(s)
  {
    assert [s][1..] == [];
  }

  lemma BytesWriterLayout(start: seq<Line>, id: int, sink: Sink)
    ensures start + Emits(BytesWriterOps(id, sink))
         == start + [Emit(DeclareLength(id))] + [Emit(Write(sink, WriteUInt32(LengthOf(id))))] + [Emit(CopyBuffer(sink))]
  {
    var ops := BytesWriterOps(id, sink);
    assert ops == [ops[0]] + [ops[1]] + [ops[2]];
    EmitsAppend([ops[0]] + [ops[1]], [ops[2]]);
    EmitsAppend([ops[0]], [ops[1]]);
    EmitsOne(ops[0]);
    EmitsOne(ops[1]);
    EmitsOne(ops[2]);
  }

  lemma PackedReaderLayout(start: seq<Line>, id: int, list: string, e: Expr)
    ensures start + Lines(PackedReaderCode(id, list, e))
         == start + [Emit(DeclareEnd(id))] + [Emit(AdvanceEnd(id))] + [BeginWhile(BeforeEnd(id))]
            + [Emit(AddTo(list, e))] + [EndBlock] + [When(NotAtEnd(id))] + [Emit(Throw(PackedOvershoot))]
  {
    var code := PackedReaderCode(id, list, e);
    assert code == [code[0]] + [code[1]] + [code[2]] + [code[3]];
    LinesAppend([code[0]] + [code[1]] + [code[2]], [code[3]]);
    LinesAppend([code[0]] + [code[1]], [code[2]]);
    LinesAppend([code[0]], [code[1]]);
    LinesOne(code[0]);
    LinesOne(code[1]);
    LinesOne(code[2]);
    LinesOne(code[3]);
    LinesOne(Do(AddTo(list, e)));
  }

  lemma Assoc<T>(a: seq<T>, b: seq<T>, c: seq<T>)
    ensures a + (b + c) == (a + b) + c
  {
  }

  /** `if (c) { <key> <value> }` */
  lemma GuardedLayout(start: seq<Line>, c: Cond, key: seq<Op>, value: seq<Op>)
    ensures start + Lines([If(c, Simple(key + value))]) == start + [BeginIf(c)] + Emits(key) + Emits(value) + [EndBlock]
  {
    LinesOne(If(c, Simple(key + value)));
    PlainLayout([BeginIf(c)], key, value);
    Assoc(start, [BeginIf(c)] + Lines(Simple(key + value)), [EndBlock]);
    Assoc(start, [BeginIf(c)], Lines(Simple(key + value)));
  }

  /** `<key> <value>` */
  lemma PlainLayout(start: seq<Line>, key: seq<Op>, value: seq<Op>)
    ensures start + Lines(Simple(key + value)) == start + Emits(key) + Emits(value)
  {
    LinesOfSimple(key + value);
    EmitsAppend(key, value);
    Assoc(start, Emits(key), Emits(value));
  }

  /** `if (<name> == null) throw ...; <key> <value>` */
  lemma CheckedLayout(start: seq<Line>, c: Cond, error: Op, key: seq<Op>, value: seq<Op>)
    ensures start + Lines([IfThen(c, error)] + Simple(key + value))
         == start + [When(c)] + [Emit(error)] + Emits(key) + Emits(value)
  {
    LinesAppend([IfThen(c, error)], Simple(key + value));
    LinesOne(IfThen(c, error));
    Assoc(start, [When(c), Emit(error)], Lines(Simple(key + value)));
    assert start + [When(c), Emit(error)] == start + [When(c)] + [Emit(error)];
    PlainLayout(start + [When(c)] + [Emit(error)], key, value);
  }

  /** `if (<name> != null) { foreach (...) { <key> <elem> } }` */
  lemma RepeatedLayout(start: seq<Line>, id: int, name: string, key: seq<Op>, elem: seq<Op>)
    ensures start + Lines([If(NotNull(name), [ForEach(id, name, Simple(key + elem))])])
         == start + [BeginIf(NotNull(name))] + [BeginForEach(id, name)] + Emits(key) + Emits(elem) + [EndBlock] + [EndBlock]
  {
    var loop := ForEach(id, name, Simple(key + elem));
    LinesOne(If(NotNull(name), [loop]));
    LinesOne(loop);
    var inner := Lines(Simple(key + elem));
    Assoc(start, [BeginIf(NotNull(name))] + ([BeginForEach(id, name)] + inner + [EndBlock]), [EndBlock]);
    Assoc(start, [BeginIf(NotNull(name))], [BeginForEach(id, name)] + inner + [EndBlock]);
    Assoc(start + [BeginIf(NotNull(name))], [BeginForEach(id, name)] + inner, [EndBlock]);
    Assoc(start + [BeginIf(NotNull(name))], [BeginForEach(id, name)], inner);
    PlainLayout(start + [BeginIf(NotNull(name))] + [BeginForEach(id, name)], key, elem);
  }

  /** `if (<name> != null) { <key> <size> foreach (...) { <elem> } }` */
  lemma PackedFixedLayout(start: seq<Line>, id: int, name: string, key: seq<Op>, size: Op, elem: seq<Op>)
    ensures start + Lines([If(NotNull(name), Simple(key + [size]) + [ForEach(id, name, Simple(elem))])])
         == start + [BeginIf(NotNull(name))] + Emits(key) + [Emit(size)] + [BeginForEach(id, name)]
            + Emits(elem) + [EndBlock] + [EndBlock]
  {
    var loop := ForEach(id, name, Simple(elem));
    var head := Lines(Simple(key + [size]));
    var tail := Lines([loop]);
    LinesOne(If(NotNull(name), Simple(key + [size]) + [loop]));
    LinesAppend(Simple(key + [size]), [loop]);
    LinesOne(loop);
    LinesOfSimple(elem);
    EmitsOne(size);
    var open := start + [BeginIf(NotNull(name))];
    Assoc(start, [BeginIf(NotNull(name))] + (head + tail), [EndBlock]);
    Assoc(start, [BeginIf(NotNull(name))], head + tail);
    Assoc(open, head, tail);
    PlainLayout(open, key, [size]);
    assert tail == [BeginForEach(id, name)] + Emits(elem) + [EndBlock];
    Assoc(open + head, [BeginForEach(id, name)] + Emits(elem), [EndBlock]);
    Assoc(open + head, [BeginForEach(id, name)], Emits(elem));
  }

  /** `if (<name> != null) { <key> <setup> foreach (...) { <elem> } <tail> }` */
  lemma PackedBufferedLayout(start: seq<Line>, id: int, name: string, key: seq<Op>, usingWriter: bool,
                             elem: seq<Op>, tail: seq<Op>)
    ensures
      var setup := [ClearBuffer] + (if usingWriter then [NewBinaryWriter(id)] else []);
      start + Lines([If(NotNull(name), Simple(key + setup) + [ForEach(id, name, Simple(elem))] + Simple(tail))])
      == start + [BeginIf(NotNull(name))] + Emits(key) + [Emit(ClearBuffer)]
         + (if usingWriter then [Emit(NewBinaryWriter(id))] else [])
         + [BeginForEach(id, name)] + Emits(elem) + [EndBlock] + Emits(tail) + [EndBlock]
  {
    var setup := [ClearBuffer] + (if usingWriter then [NewBinaryWriter(id)] else []);
    var loop := ForEach(id, name, Simple(elem));
    var a := Lines(Simple(key + setup));
    var b := Lines([loop]);
    var c := Lines(Simple(tail));
    LinesOne(If(NotNull(name), Simple(key + setup) + [loop] + Simple(tail)));
    LinesAppend(Simple(key + setup) + [loop], Simple(tail));
    LinesAppend(Simple(key + setup), [loop]);
    LinesOne(loop);
    LinesOfSimple(elem);
    LinesOfSimple(tail);
    var open := start + [BeginIf(NotNull(name))];
    Assoc(start, [BeginIf(NotNull(name))] + (a + b + c), [EndBlock]);
    Assoc(start, [BeginIf(NotNull(name))], a + b + c);
    Assoc(open, a + b, c);
    Assoc(open, a, b);
    PlainLayout(open, key, setup);
    EmitsAppend([ClearBuffer], if usingWriter then [NewBinaryWriter(id)] else []);
    EmitsOne(ClearBuffer);
    if usingWriter {
      EmitsOne(NewBinaryWriter(id));
    }
    var extra := if usingWriter then [Emit(NewBinaryWriter(id))] else [];
    Assoc(open + Emits(key), [Emit(ClearBuffer)], extra);
    var afterSetup := open + Emits(key) + [Emit(ClearBuffer)] + extra;
    assert b == [BeginForEach(id, name)] + Emits(elem) + [EndBlock];
    Assoc(afterSetup, [BeginForEach(id, name)] + Emits(elem), [EndBlock]);
    Assoc(afterSetup, [BeginForEach(id, name)], Emits(elem));
  }

  /** The generator of one message's field codecs. */
  class FieldSerializer {
    const cw: CodeWriter
    const options: Options

    constructor(cw: CodeWriter, options: Options)
      ensures this.cw == cw && this.options == options
    {
      this.cw := cw;
      this.options := options;
    }

    /**
     * Appends the decoding of `f`. The result is false exactly when the
     * appended code is a bare throw, so that no `break` need follow it.
     */
    method FieldReader(f: Field) returns (r: Result<bool, GenError>)
      modifies cw
      ensures FieldReaderCode(f, options).Success? ==>
        r == Success(FieldReaderCode(f, options).value.normal)
        && cw.lines == old(cw.lines) + Lines(FieldReaderCode(f, options).value.code)
      ensures FieldReaderCode(f, options).Failure? ==>
        r == Failure(FieldReaderCode(f, options).error) && old(cw.lines) <= cw.lines
    {
      var t := f.protoType;
      var name := f.csName;
      if f.rule == Repeated {
        if IsInterface(t) {
          cw.WriteLine(Emit(Throw(ListOfInterfaces)));
          return Success(false);
        }
        if f.optionPacked {
          cw.WriteLine(Emit(DeclareEnd(f.id)));
          cw.WriteLine(Emit(AdvanceEnd(f.id)));
          cw.WriteLine(BeginWhile(BeforeEnd(f.id)));
          var e :- FieldReaderType(f, options, None);
          cw.WriteLine(Emit(AddTo(name, e)));
          cw.WriteLine(EndBlock);
          cw.WriteLine(When(NotAtEnd(f.id)));
          cw.WriteLine(Emit(Throw(PackedOvershoot)));
          PackedReaderLayout(old(cw.lines), f.id, name, e);
        } else {
          var e :- FieldReaderType(f, options, None);
          cw.WriteLine(Emit(AddTo(name, e)));
        }
      } else {
        if f.optionReadOnly {
          if t.MessageType? {
            var e :- FieldReaderType(f, options, Some(Member(name)));
            cw.WriteLine(Emit(Evaluate(e)));
            return Success(true);
          }
          cw.WriteLine(Emit(Throw(ReadOnlyPrimitive)));
          return Success(false);
        }
        if t.MessageType? {
          if t.symbol.optionType == Struct {
            if options.nullable {
              var e :- FieldReaderType(f, options, None);
              cw.WriteLine(Emit(Assign(name, e)));
            } else {
              var e :- FieldReaderType(f, options, Some(RefMember(name)));
              cw.WriteLine(Emit(Evaluate(e)));
            }
            return Success(true);
          }
          cw.WriteLine(When(IsNull(name)));
          var whenNull: Op;
          if t.symbol.optionType == Interface {
            whenNull := Throw(NullInterface);
          } else {
            var e :- FieldReaderType(f, options, None);
            whenNull := Assign(name, e);
          }
          cw.WriteLine(Emit(whenNull));
          cw.WriteLine(Else);
          var merge :- FieldReaderType(f, options, Some(Member(name)));
          cw.WriteLine(Emit(Evaluate(merge)));
          return Success(true);
        }
        var e :- FieldReaderType(f, options, Some(Member(name)));
        cw.WriteLine(Emit(Assign(name, e)));
      }
      return Success(true);
    }

    /** Appends the key of a field: `(id << 3) | wire` in 32 bits, as literal varint bytes. */
    static method KeyWriter(stream: Sink, id: int, wire: WireType, cw: CodeWriter)
      modifies cw
      ensures cw.lines == old(cw.lines) + Emits(KeyOps(stream, id, wire))
    {
      var n := Key(id, wire);
      VarintWriter(stream, n, cw);
    }

    /** Appends one `WriteByte` per base-128 digit of a value known at generation time. */
    static method VarintWriter(stream: Sink, value: uint32, cw: CodeWriter)
      modifies cw
      ensures cw.lines == old(cw.lines) + Emits(ByteOps(stream, VarintBytes(value)))
    {
      var rest: nat := value;
      ghost var written: seq<byte> := [];
      while true
        invariant written + VarintBytes(rest) == VarintBytes(value)
        invariant cw.lines == old(cw.lines) + Emits(ByteOps(stream, written))
        decreases rest
      {
        VarintDigit(rest);
        var b: byte := rest % 128;   // value & 0x7F
        rest := rest / 128;          // value >>= 7
        if rest == 0 {
          cw.WriteLine(Emit(WriteByte(stream, b)));
          VarintWritten(stream, written, b, [], old(cw.lines));
          written := written + [b];
          break;
        }
        b := b + 128;                // b |= 0x80
        cw.WriteLine(Emit(WriteByte(stream, b)));
        VarintWritten(stream, written, b, VarintBytes(rest), old(cw.lines));
        written := written + [b];
      }
    }

    /** Appends the scratch buffer's length and contents to `stream`. */
    static method BytesWriter(f: Field, stream: Sink, cw: CodeWriter)
      modifies cw
      ensures cw.lines == old(cw.lines) + Emits(BytesWriterOps(f.id, stream))
    {
      cw.WriteLine(Emit(DeclareLength(f.id)));
      cw.WriteLine(Emit(Write(stream, WriteUInt32(LengthOf(f.id)))));
      cw.WriteLine(Emit(CopyBuffer(stream)));
      BytesWriterLayout(old(cw.lines), f.id, stream);
    }

    /** Appends the encoding of `f`. */
    method FieldWriter(f: Field) returns (r: Result<(), GenError>)
      modifies cw
      ensures FieldWriterCode(f, options).Success? ==>
        r.Success? && cw.lines == old(cw.lines) + Lines(FieldWriterCode(f, options).value)
      ensures FieldWriterCode(f, options).Failure? ==>
        r == Failure(FieldWriterCode(f, options).error) && old(cw.lines) <= cw.lines
    {
      match f.rule
      case Repeated => r := RepeatedWriter(f);
      case Optional => r := OptionalWriter(f);
      case Required => r := RequiredWriter(f);
    }

    method RepeatedWriter(f: Field) returns (r: Result<(), GenError>)
      requires f.rule == Repeated
      modifies cw
      ensures RepeatedWriterCode(f, options).Success? ==>
        r.Success? && cw.lines == old(cw.lines) + Lines(RepeatedWriterCode(f, options).value)
      ensures RepeatedWriterCode(f, options).Failure? ==>
        r == Failure(RepeatedWriterCode(f, options).error) && old(cw.lines) <= cw.lines
    {
      if f.optionPacked {
        if WireSizeOf(f.protoType) < 0 {
          r := PackedBufferedWriter(f);
        } else {
          r := PackedFixedWriter(f);
        }
        return;
      }
      var name := f.csName;
      cw.WriteLine(BeginIf(NotNull(name)));
      cw.WriteLine(BeginForEach(f.id, name));
      KeyWriter(Stream, f.id, WireTypeOf(f.protoType), cw);
      var u :- FieldWriterType(f, Stream, SharedWriter, Element(f.id));
      cw.WriteLine(EndBlock);
      cw.WriteLine(EndBlock);
      ghost var elem := FieldWriterTypeCode(f, options, Stream, SharedWriter, Element(f.id)).value;
      assert RepeatedWriterCode(f, options).value
          == [If(NotNull(name), [ForEach(f.id, name, Simple(KeyOps(Stream, f.id, WireTypeOf(f.protoType)) + elem))])];
      RepeatedLayout(old(cw.lines), f.id, name, KeyOps(Stream, f.id, WireTypeOf(f.protoType)), elem);
      return Success(());
    }

    /** A packed field of variable-size elements: the elements go to a scratch buffer, then length and buffer follow. */
    method PackedBufferedWriter(f: Field) returns (r: Result<(), GenError>)
      requires f.rule == Repeated && f.optionPacked && WireSizeOf(f.protoType) < 0
      modifies cw
      ensures RepeatedWriterCode(f, options).Success? ==>
        r.Success? && cw.lines == old(cw.lines) + Lines(RepeatedWriterCode(f, options).value)
      ensures RepeatedWriterCode(f, options).Failure? ==>
        r == Failure(RepeatedWriterCode(f, options).error) && old(cw.lines) <= cw.lines
    {
      var name := f.csName;
      cw.WriteLine(BeginIf(NotNull(name)));
      KeyWriter(Stream, f.id, LengthDelimited, cw);
      cw.WriteLine(Emit(ClearBuffer));
      ghost var cleared := cw.lines;
      ghost var extra: seq<Line> := if f.isUsingBinaryWriter then [Emit(NewBinaryWriter(f.id))] else [];
      if f.isUsingBinaryWriter {
        cw.WriteLine(Emit(NewBinaryWriter(f.id)));
      } else {
        assert cleared + extra == cleared;
      }
      assert cw.lines == cleared + extra;
      cw.WriteLine(BeginForEach(f.id, name));
      var u :- FieldWriterType(f, MsField, OwnWriter(f.id), Element(f.id));
      cw.WriteLine(EndBlock);
      BytesWriter(f, Stream, cw);
      cw.WriteLine(EndBlock);
      ghost var elem := FieldWriterTypeCode(f, options, MsField, OwnWriter(f.id), Element(f.id)).value;
      ghost var setup := [ClearBuffer] + (if f.isUsingBinaryWriter then [NewBinaryWriter(f.id)] else []);
      assert RepeatedWriterCode(f, options).value
          == [If(NotNull(name), Simple(KeyOps(Stream, f.id, LengthDelimited) + setup)
                                + [ForEach(f.id, name, Simple(elem))] + Simple(BytesWriterOps(f.id, Stream)))];
      PackedBufferedLayout(old(cw.lines), f.id, name, KeyOps(Stream, f.id, LengthDelimited), f.isUsingBinaryWriter,
                           elem, BytesWriterOps(f.id, Stream));
      return Success(());
    }

    /** A packed field of constant-size elements: the length is known from the count, the elements follow it. */
    method PackedFixedWriter(f: Field) returns (r: Result<(), GenError>)
      requires f.rule == Repeated && f.optionPacked && WireSizeOf(f.protoType) >= 0
      modifies cw
      ensures RepeatedWriterCode(f, options).Success? ==>
        r.Success? && cw.lines == old(cw.lines) + Lines(RepeatedWriterCode(f, options).value)
      ensures RepeatedWriterCode(f, options).Failure? ==>
        r == Failure(RepeatedWriterCode(f, options).error) && old(cw.lines) <= cw.lines
    {
      var name := f.csName;
      var size := Write(Stream, WriteUInt32(PackedSize(WireSizeOf(f.protoType), name)));
      cw.WriteLine(BeginIf(NotNull(name)));
      KeyWriter(Stream, f.id, LengthDelimited, cw);
      cw.WriteLine(Emit(size));
      cw.WriteLine(BeginForEach(f.id, name));
      var u :- FieldWriterType(f, Stream, SharedWriter, Element(f.id));
      cw.WriteLine(EndBlock);
      cw.WriteLine(EndBlock);
      ghost var elem := FieldWriterTypeCode(f, options, Stream, SharedWriter, Element(f.id)).value;
      assert RepeatedWriterCode(f, options).value
          == [If(NotNull(name), Simple(KeyOps(Stream, f.id, LengthDelimited) + [size])
                                + [ForEach(f.id, name, Simple(elem))])];
      PackedFixedLayout(old(cw.lines), f.id, name, KeyOps(Stream, f.id, LengthDelimited), size, elem);
      return Success(());
    }

    method OptionalWriter(f: Field) returns (r: Result<(), GenError>)
      requires f.rule == Optional
      modifies cw
      ensures OptionalWriterCode(f, options).Success? ==>
        r.Success? && cw.lines == old(cw.lines) + Lines(OptionalWriterCode(f, options).value)
      ensures OptionalWriterCode(f, options).Failure? ==>
        r == Failure(OptionalWriterCode(f, options).error) && old(cw.lines) <= cw.lines
    {
      var t := f.protoType;
      var name := f.csName;
      var skip := options.skipSerializeDefault && f.optionDefault.Some?;
      if NullableBranch(t, options) {
        if NullGuarded(t, options) {
          cw.WriteLine(BeginIf(NotNull(name)));
        }
        KeyWriter(Stream, f.id, WireTypeOf(t), cw);
        var needValue := !TypeNullable(t) && options.nullable;
        var v := if needValue then NullableValue(InstanceMember(name)) else InstanceMember(name);
        var u :- FieldWriterType(f, Stream, SharedWriter, v);
        ghost var value := FieldWriterTypeCode(f, options, Stream, SharedWriter, v).value;
        if NullGuarded(t, options) {
          cw.WriteLine(EndBlock);
          GuardedLayout(old(cw.lines), NotNull(name), KeyOps(Stream, f.id, WireTypeOf(t)), value);
        } else {
          PlainLayout(old(cw.lines), KeyOps(Stream, f.id, WireTypeOf(t)), value);
        }
        return Success(());
      }
      if skip {
        cw.WriteLine(BeginIf(NotDefault(name, f.optionDefault.value)));
      }
      KeyWriter(Stream, f.id, WireTypeOf(t), cw);
      var u :- FieldWriterType(f, Stream, SharedWriter, InstanceMember(name));
      ghost var value := FieldWriterTypeCode(f, options, Stream, SharedWriter, InstanceMember(name)).value;
      if skip {
        cw.WriteLine(EndBlock);
        GuardedLayout(old(cw.lines), NotDefault(name, f.optionDefault.value), KeyOps(Stream, f.id, WireTypeOf(t)), value);
      } else {
        PlainLayout(old(cw.lines), KeyOps(Stream, f.id, WireTypeOf(t)), value);
      }
      return Success(());
    }

    method RequiredWriter(f: Field) returns (r: Result<(), GenError>)
      requires f.rule == Required
      modifies cw
      ensures RequiredWriterCode(f, options).Success? ==>
        r.Success? && cw.lines == old(cw.lines) + Lines(RequiredWriterCode(f, options).value)
      ensures RequiredWriterCode(f, options).Failure? ==>
        r == Failure(RequiredWriterCode(f, options).error) && old(cw.lines) <= cw.lines
    {
      var t := f.protoType;
      var name := f.csName;
      if RequiredChecked(t) {
        cw.WriteLine(When(IsNull(name)));
        cw.WriteLine(Emit(Throw(RequiredMissing(name))));
      }
      KeyWriter(Stream, f.id, WireTypeOf(t), cw);
      var u :- FieldWriterType(f, Stream, SharedWriter, InstanceMember(name));
      ghost var value := FieldWriterTypeCode(f, options, Stream, SharedWriter, InstanceMember(name)).value;
      ghost var check := if RequiredChecked(t) then [IfThen(IsNull(name), Throw(RequiredMissing(name)))] else [];
      assert RequiredWriterCode(f, options).value == check + Simple(KeyOps(Stream, f.id, WireTypeOf(t)) + value);
      if RequiredChecked(t) {
        CheckedLayout(old(cw.lines), IsNull(name), Throw(RequiredMissing(name)), KeyOps(Stream, f.id, WireTypeOf(t)), value);
      } else {
        assert check + Simple(KeyOps(Stream, f.id, WireTypeOf(t)) + value) == Simple(KeyOps(Stream, f.id, WireTypeOf(t)) + value);
        assert check + Simple(KeyOps(Stream, f.id, WireTypeOf(t)) + value) == Simple(KeyOps(Stream, f.id, WireTypeOf(t)) + value);
        PlainLayout(old(cw.lines), KeyOps(Stream, f.id, WireTypeOf(t)), value);
      }
      return Success(());
    }

    /** Appends the statements that write value `v` of field `f` to `stream`. */
    method FieldWriterType(f: Field, stream: Sink, writer: BinaryWriterName, v: Value) returns (r: Result<(), GenError>)
      modifies cw
      ensures FieldWriterTypeCode(f, options, stream, writer, v).Success? ==>
        r.Success? && cw.lines == old(cw.lines) + Emits(FieldWriterTypeCode(f, options, stream, writer, v).value)
      ensures FieldWriterTypeCode(f, options, stream, writer, v).Failure? ==>
        r == Failure(FieldWriterTypeCode(f, options, stream, writer, v).error) && cw.lines == old(cw.lines)
    {
      var instance := v;
      if f.optionCodeType == Some("DateTime") {
        instance := if options.utc then UtcTicks(v) else Ticks(v);
      } else if f.optionCodeType == Some("TimeSpan") {
        instance := Ticks(v);
      }
      var ops :- FieldWriterPrimitive(f, stream, writer, instance);
      cw.WriteOps(ops);
      return Success(());
    }
  }
}

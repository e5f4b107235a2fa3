/**
 * What the generated field codecs do: properties of the statements that
 * `FieldReaderCode` and `FieldWriterCode` describe, stated through the
 * run-time reading `Run` of those statements, and the agreement between
 * the decoding and the encoding of each scalar type.
 */
module SerializerProperties {
  import opened Wrappers
  import opened WireFormat
  import opened ProtoTypes
  import opened GeneratedCode
  import opened FieldSerializers

  // ---------------------------------------------------------------------------------------------
  // Running straight-line code

  /** The statements that only write: they never read the input and never throw. */
  predicate IsWrite(op: Op) {
    op.WriteByte? || op.Write? || op.BinaryWrite? || op.ClearBuffer? || op.NewBinaryWriter?
    || op.Serialize? || op.DeclareLength? || op.CopyBuffer?
  }

  predicate AllWrites(ops: seq<Op>) {
    forall i :: 0 <= i < |ops| ==> IsWrite(ops[i])
  }

  /** `ops` written `n` times in a row: what a `foreach` over `n` elements writes. */
  function Repeat(ops: seq<Op>, n: nat): seq<Op>
  {
    if n == 0 then [] else ops + Repeat(ops, n - 1)
  }

  lemma {:induction false} RunAppend(a: seq<Stmt>, b: seq<Stmt>, env: Env, st: State)
    ensures Run(a + b, env, st) == match Run(a, env, st)
                                   case Completed(next) => Run(b, env, next)
                                   case other => other
    decreases a
  {
    if a == [] {
      assert a + b == b;
    } else {
      assert (a + b)[0] == a[0];
      assert (a + b)[1..] == a[1..] + b;
      match RunStmt(a[0], env, st)
      case Completed(next) => RunAppend(a[1..], b, env, next);
      case Threw(_) =>
      case Diverged =>
    }
  }

  lemma RunOne(s: Stmt, env: Env, st: State)
    ensures Run([s], env, st) == RunStmt(s, env, st)
  {
    assert [s][1..] == [];
  }

  /** Writing statements run in order and leave exactly their own trace. */
  lemma {:induction false} RunWrites(ops: seq<Op>, env: Env, st: State)
    requires AllWrites(ops)
    ensures Run(Simple(ops), env, st) == Completed(st.(trace := st.trace + ops))
    decreases ops
  {
    if ops == [] {
      assert st.trace + ops == st.trace;
    } else {
      var next := st.(trace := st.trace + [ops[0]]);
      WriteStep(ops[0], st);
      RunCons(Do(ops[0]), Simple(ops[1..]), env, st);
      RunWrites(ops[1..], env, next);
      assert next.trace + ops[1..] == st.trace + ops;
    }
  }

  lemma RunCons(s: Stmt, rest: seq<Stmt>, env: Env, st: State)
    requires RunStmt(s, env, st).Completed?
    ensures Run([s] + rest, env, st) == Run(rest, env, RunStmt(s, env, st).st)
  {
    assert ([s] + rest)[0] == s;
    assert ([s] + rest)[1..] == rest;
  }

  lemma WriteStep(op: Op, st: State)
    requires IsWrite(op)
    ensures Step(op, st) == Completed(st.(trace := st.trace + [op]))
  {
  }

  /** A `foreach` over straight-line writes leaves the writes once per element. */
  lemma {:induction false} RunEachWrites(ops: seq<Op>, n: nat, env: Env, st: State)
    requires AllWrites(ops)
    ensures RunEach(Simple(ops), n, env, st) == Completed(st.(trace := st.trace + Repeat(ops, n)))
    decreases n
  {
    if n == 0 {
      assert st.trace + Repeat(ops, n) == st.trace;
    } else {
      RunWrites(ops, env, st);
      var next := st.(trace := st.trace + ops);
      RunEachWrites(ops, n - 1, env, next);
      assert next.trace + Repeat(ops, n - 1) == st.trace + Repeat(ops, n);
    }
  }

  lemma {:induction false} ByteOpsWrite(sink: Sink, bs: seq<byte>)
    ensures |ByteOps(sink, bs)| == |bs|
    ensures forall i :: 0 <= i < |bs| ==> ByteOps(sink, bs)[i] == WriteByte(sink, bs[i])
    decreases bs
  {
    if bs != [] {
      ByteOpsWrite(sink, bs[1..]);
    }
  }

  /** Every value the encoder writes is written by write statements only. */
  lemma ValueWrites(f: Field, options: Options, sink: Sink, writer: BinaryWriterName, v: Value)
    requires FieldWriterTypeCode(f, options, sink, writer, v).Success?
    ensures AllWrites(FieldWriterTypeCode(f, options, sink, writer, v).value)
  {
    PrimitiveWrites(f, sink, writer, TypedValue(f, options, v));
  }

  lemma PrimitiveWrites(f: Field, sink: Sink, writer: BinaryWriterName, v: Value)
    requires FieldWriterPrimitive(f, sink, writer, v).Success?
    ensures AllWrites(FieldWriterPrimitive(f, sink, writer, v).value)
  {
  }

  // ---------------------------------------------------------------------------------------------
  // Keys

  /** The byte values of the literal `WriteByte` statements among `ops`. */
  function Literal(ops: seq<Op>): seq<byte>
  {
    if ops == [] then []
    else (if ops[0].WriteByte? then [ops[0].b] else []) + Literal(ops[1..])
  }

  lemma {:induction false} LiteralOfByteOps(sink: Sink, bs: seq<byte>)
    ensures Literal(ByteOps(sink, bs)) == bs
    decreases bs
  {
    if bs != [] {
      assert ByteOps(sink, bs)[1..] == ByteOps(sink, bs[1..]);
      LiteralOfByteOps(sink, bs[1..]);
    }
  }

  /**
   * A field key is written as one to five literal bytes, never through a
   * run-time varint call; the bytes read back as one varint whose value is
   * `(id << 3) | wire`, from which the field number and the wire type come back.
   */
  lemma KeyWrittenLiterally(sink: Sink, id: int, wire: WireType, rest: seq<byte>)
    requires 0 < id < 0x2000_0000
    ensures 1 <= |KeyOps(sink, id, wire)| <= 5
    ensures forall op <- KeyOps(sink, id, wire) :: op.WriteByte? && op.sink == sink
    ensures ReadVarint(Literal(KeyOps(sink, id, wire)) + rest) == Some((Key(id, wire), |KeyOps(sink, id, wire)|))
    ensures Key(id, wire) / 8 == id && Key(id, wire) % 8 == WireNumber(wire)
  {
    ByteOpsWrite(sink, KeyBytes(id, wire));
    LiteralOfByteOps(sink, KeyBytes(id, wire));
    KeyRoundTrip(id, wire, rest);
  }

  /** The bytes `VarintWriter` writes for a `uint`: one to five, continuation bits on all but the last, and they read back. */
  lemma VarintWriterBytes(sink: Sink, value: uint32, rest: seq<byte>)
    ensures 1 <= |ByteOps(sink, VarintBytes(value))| <= 5
    ensures var bs := Literal(ByteOps(sink, VarintBytes(value)));
      && (forall i :: 0 <= i < |bs| - 1 ==> bs[i] >= 128)
      && bs[|bs| - 1] < 128
      && ReadVarint(bs + rest) == Some((value, |bs|))
  {
    ByteOpsWrite(sink, VarintBytes(value));
    LiteralOfByteOps(sink, VarintBytes(value));
    VarintLengthBounds(value);
    VarintRoundTrip(value, rest);
  }

  // ---------------------------------------------------------------------------------------------
  // Encoding

  /**
   * A repeated, unpacked field: nothing when the list is null, otherwise
   * the key and the value once per element (the key with the element's own wire type).
   */
  lemma RepeatedEncodeRun(f: Field, options: Options, env: Env, st: State)
    requires f.rule == Repeated && !f.optionPacked && FieldWriterCode(f, options).Success?
    ensures var elem := FieldWriterTypeCode(f, options, Stream, SharedWriter, Element(f.id)).value;
      Run(FieldWriterCode(f, options).value, env, st)
      == if env.memberIsNull then Completed(st)
         else Completed(st.(trace := st.trace + Repeat(KeyOps(Stream, f.id, WireTypeOf(f.protoType)) + elem, env.elements)))
  {
    var elem := FieldWriterTypeCode(f, options, Stream, SharedWriter, Element(f.id)).value;
    var ops := KeyOps(Stream, f.id, WireTypeOf(f.protoType)) + elem;
    var loop := ForEach(f.id, f.csName, Simple(ops));
    ValueWrites(f, options, Stream, SharedWriter, Element(f.id));
    ByteOpsWrite(Stream, KeyBytes(f.id, WireTypeOf(f.protoType)));
    assert AllWrites(ops);
    RunOne(If(NotNull(f.csName), [loop]), env, st);
    RunOne(loop, env, st);
    RunEachWrites(ops, env.elements, env, st);
  }

  /**
   * A packed field of constant-size elements: one length-delimited key,
   * the length `size * Count` known in advance, then the elements directly.
   */
  lemma PackedFixedEncodeRun(f: Field, options: Options, env: Env, st: State)
    requires f.rule == Repeated && f.optionPacked && WireSizeOf(f.protoType) >= 0
    requires FieldWriterCode(f, options).Success?
    ensures var elem := FieldWriterTypeCode(f, options, Stream, SharedWriter, Element(f.id)).value;
      var size := Write(Stream, WriteUInt32(PackedSize(WireSizeOf(f.protoType), f.csName)));
      Run(FieldWriterCode(f, options).value, env, st)
      == if env.memberIsNull then Completed(st)
         else Completed(st.(trace := st.trace + KeyOps(Stream, f.id, LengthDelimited) + [size] + Repeat(elem, env.elements)))
  {
    var elem := FieldWriterTypeCode(f, options, Stream, SharedWriter, Element(f.id)).value;
    var size := Write(Stream, WriteUInt32(PackedSize(WireSizeOf(f.protoType), f.csName)));
    var head := KeyOps(Stream, f.id, LengthDelimited) + [size];
    var loop := ForEach(f.id, f.csName, Simple(elem));
    ValueWrites(f, options, Stream, SharedWriter, Element(f.id));
    ByteOpsWrite(Stream, KeyBytes(f.id, LengthDelimited));
    assert AllWrites(head);
    assert FieldWriterCode(f, options).value == [If(NotNull(f.csName), Simple(head) + [loop])];
    RunOne(If(NotNull(f.csName), Simple(head) + [loop]), env, st);
    if !env.memberIsNull {
      RunAppend(Simple(head), [loop], env, st);
      RunWrites(head, env, st);
      var mid := st.(trace := st.trace + head);
      RunOne(loop, env, mid);
      RunEachWrites(elem, env.elements, env, mid);
      Assoc(st.trace, KeyOps(Stream, f.id, LengthDelimited), [size]);
    }
  }

  /**
   * A packed field of variable-size elements: one length-delimited key,
   * the elements into the cleared scratch buffer, then its length and contents.
   */
  lemma PackedBufferedEncodeRun(f: Field, options: Options, env: Env, st: State)
    requires f.rule == Repeated && f.optionPacked && WireSizeOf(f.protoType) < 0
    requires FieldWriterCode(f, options).Success?
    ensures var elem := FieldWriterTypeCode(f, options, MsField, OwnWriter(f.id), Element(f.id)).value;
      var setup := [ClearBuffer] + (if f.isUsingBinaryWriter then [NewBinaryWriter(f.id)] else []);
      Run(FieldWriterCode(f, options).value, env, st)
      == if env.memberIsNull then Completed(st)
         else Completed(st.(trace := st.trace + KeyOps(Stream, f.id, LengthDelimited) + setup
                                   + Repeat(elem, env.elements) + BytesWriterOps(f.id, Stream)))
  {
    var elem := FieldWriterTypeCode(f, options, MsField, OwnWriter(f.id), Element(f.id)).value;
    var setup := [ClearBuffer] + (if f.isUsingBinaryWriter then [NewBinaryWriter(f.id)] else []);
    var head := KeyOps(Stream, f.id, LengthDelimited) + setup;
    var tail := BytesWriterOps(f.id, Stream);
    var loop := ForEach(f.id, f.csName, Simple(elem));
    ValueWrites(f, options, MsField, OwnWriter(f.id), Element(f.id));
    ByteOpsWrite(Stream, KeyBytes(f.id, LengthDelimited));
    assert AllWrites(head);
    assert AllWrites(tail);
    var body := Simple(head) + [loop] + Simple(tail);
    assert FieldWriterCode(f, options).value == [If(NotNull(f.csName), body)];
    RunOne(If(NotNull(f.csName), body), env, st);
    if !env.memberIsNull {
      RunAppend(Simple(head) + [loop], Simple(tail), env, st);
      RunAppend(Simple(head), [loop], env, st);
      RunWrites(head, env, st);
      var mid := st.(trace := st.trace + head);
      RunOne(loop, env, mid);
      RunEachWrites(elem, env.elements, env, mid);
      var last := mid.(trace := mid.trace + Repeat(elem, env.elements));
      RunWrites(tail, env, last);
      assert Run(body, env, st) == Completed(last.(trace := last.trace + tail));
      Assoc(st.trace, KeyOps(Stream, f.id, LengthDelimited), setup);
    }
  }

  /**
   * An optional field in the nullable branch (the `Nullable` option, a
   * message, string or bytes) is skipped exactly when it is null and its
   * type or the option makes it nullable; otherwise its key and value are
   * written, through `.Value` when only the option makes it nullable. The
   * default value plays no part here.
   */
  lemma NullableEncodeRun(f: Field, options: Options, env: Env, st: State)
    requires f.rule == Optional && NullableBranch(f.protoType, options) && FieldWriterCode(f, options).Success?
    ensures var t := f.protoType;
      var v := if !TypeNullable(t) && options.nullable then NullableValue(InstanceMember(f.csName)) else InstanceMember(f.csName);
      var value := FieldWriterTypeCode(f, options, Stream, SharedWriter, v).value;
      Run(FieldWriterCode(f, options).value, env, st)
      == if NullGuarded(t, options) && env.memberIsNull then Completed(st)
         else Completed(st.(trace := st.trace + KeyOps(Stream, f.id, WireTypeOf(t)) + value))
  {
    var t := f.protoType;
    var v := if !TypeNullable(t) && options.nullable then NullableValue(InstanceMember(f.csName)) else InstanceMember(f.csName);
    var value := FieldWriterTypeCode(f, options, Stream, SharedWriter, v).value;
    var ops := KeyOps(Stream, f.id, WireTypeOf(t)) + value;
    ValueWrites(f, options, Stream, SharedWriter, v);
    ByteOpsWrite(Stream, KeyBytes(f.id, WireTypeOf(t)));
    assert AllWrites(ops);
    RunWrites(ops, env, st);
    if NullGuarded(t, options) {
      assert FieldWriterCode(f, options).value == [If(NotNull(f.csName), Simple(ops))];
      RunOne(If(NotNull(f.csName), Simple(ops)), env, st);
    } else {
      assert FieldWriterCode(f, options).value == Simple(ops);
    }
  }

  /**
   * Any other optional field is skipped exactly when `SkipSerializeDefault`
   * is on, a default is given and the value equals it; otherwise its key
   * and value are written. Nullness plays no part here.
   */
  lemma DefaultEncodeRun(f: Field, options: Options, env: Env, st: State)
    requires f.rule == Optional && !NullableBranch(f.protoType, options) && FieldWriterCode(f, options).Success?
    ensures var t := f.protoType;
      var value := FieldWriterTypeCode(f, options, Stream, SharedWriter, InstanceMember(f.csName)).value;
      Run(FieldWriterCode(f, options).value, env, st)
      == if options.skipSerializeDefault && f.optionDefault.Some? && env.memberIsDefault then Completed(st)
         else Completed(st.(trace := st.trace + KeyOps(Stream, f.id, WireTypeOf(t)) + value))
  {
    var t := f.protoType;
    var value := FieldWriterTypeCode(f, options, Stream, SharedWriter, InstanceMember(f.csName)).value;
    var ops := KeyOps(Stream, f.id, WireTypeOf(t)) + value;
    ValueWrites(f, options, Stream, SharedWriter, InstanceMember(f.csName));
    ByteOpsWrite(Stream, KeyBytes(f.id, WireTypeOf(t)));
    assert AllWrites(ops);
    RunWrites(ops, env, st);
    if options.skipSerializeDefault && f.optionDefault.Some? {
      RunOne(If(NotDefault(f.csName, f.optionDefault.value), Simple(ops)), env, st);
    }
  }

  /**
   * A required field whose C# value can be null (a message not held as a
   * struct, string or bytes) throws when it is null; otherwise the key and
   * the value are written.
   */
  lemma RequiredEncodeRun(f: Field, options: Options, env: Env, st: State)
    requires f.rule == Required && FieldWriterCode(f, options).Success?
    ensures var value := FieldWriterTypeCode(f, options, Stream, SharedWriter, InstanceMember(f.csName)).value;
      Run(FieldWriterCode(f, options).value, env, st)
      == if RequiredChecked(f.protoType) && env.memberIsNull then Threw(RequiredMissing(f.csName))
         else Completed(st.(trace := st.trace + KeyOps(Stream, f.id, WireTypeOf(f.protoType)) + value))
  {
    var value := FieldWriterTypeCode(f, options, Stream, SharedWriter, InstanceMember(f.csName)).value;
    var ops := KeyOps(Stream, f.id, WireTypeOf(f.protoType)) + value;
    ValueWrites(f, options, Stream, SharedWriter, InstanceMember(f.csName));
    ByteOpsWrite(Stream, KeyBytes(f.id, WireTypeOf(f.protoType)));
    assert AllWrites(ops);
    RunWrites(ops, env, st);
    if RequiredChecked(f.protoType) {
      var check := IfThen(IsNull(f.csName), Throw(RequiredMissing(f.csName)));
      RunAppend([check], Simple(ops), env, st);
      RunOne(check, env, st);
    } else {
      assert FieldWriterCode(f, options).value == Simple(ops);
    }
  }

  // ---------------------------------------------------------------------------------------------
  // Decoding

  /** The two combinations the decoder cannot handle: a list of interfaces, and a readonly non-message. */
  predicate ReaderRejects(f: Field) {
    || (f.rule == Repeated && IsInterface(f.protoType))
    || (f.rule != Repeated && f.optionReadOnly && !f.protoType.MessageType?)
  }

  /**
   * `FieldReader` reports an abnormal end exactly for the rejected
   * combinations, which never fail at generation time; their code is one
   * throw statement.
   */
  lemma ReaderThrowCases(f: Field, options: Options)
    ensures ReaderRejects(f) ==> FieldReaderCode(f, options).Success?
    ensures FieldReaderCode(f, options).Success? ==>
      var em := FieldReaderCode(f, options).value;
      && (em.normal <==> !ReaderRejects(f))
      && (!em.normal ==> |em.code| == 1 && em.code[0].Do? && em.code[0].op.Throw?)
  {
  }

  /**
   * Code that ends abnormally throws whatever the field and the input; code
   * that ends normally completes on a present field with a value to read.
   */
  lemma ReaderRunThrows(f: Field, options: Options, env: Env, st: State)
    requires FieldReaderCode(f, options).Success?
    ensures var em := FieldReaderCode(f, options).value;
      && (!em.normal ==> Run(em.code, env, st).Threw?)
      && (em.normal ==> Run(em.code, Env(false, false, 0), State(0, 0, [Chunk(1, 1), Chunk(0, 1)], [])).Completed?)
  {
    var em := FieldReaderCode(f, options).value;
    ReaderThrowCases(f, options);
    if !em.normal {
      RunOne(em.code[0], env, st);
    } else {
      var st0 := State(0, 0, [Chunk(1, 1), Chunk(0, 1)], []);
      var env0 := Env(false, false, 0);
      if |em.code| == 1 {
        RunOne(em.code[0], env0, st0);
        assert !em.code[0].Do? || !em.code[0].op.Throw?;
      } else {
        var e :| em.code == PackedReaderCode(f.id, f.csName, e);
        PackedReaderWitness(f.id, f.csName, e, env0, st0);
      }
    }
  }

  lemma PackedReaderWitness(id: int, list: string, e: Expr, env: Env, st: State)
    requires st == State(0, 0, [Chunk(1, 1), Chunk(0, 1)], [])
    ensures Run(PackedReaderCode(id, list, e), env, st).Completed?
  {
    var elems := [Chunk(0, 1)];
    assert st.input == [Chunk(1, 1)] + elems + [];
    assert Sizes(elems) == 1 by {
      assert elems[1..] == [];
    }
    assert elems[..0] == [];
    PackedDecodeRun(id, list, e, env, st, 1, 1, elems, []);
  }

  /**
   * How a message-typed field that is not repeated is decoded, run on the
   * current field and input: merged into the existing value when readonly;
   * for a struct, assigned fresh under `Nullable` and decoded by reference
   * otherwise; for a class, decoded fresh when null and merged otherwise;
   * for an interface, a throw when null and a merge otherwise.
   */
  lemma MessageDecodeRun(f: Field, options: Options, env: Env, st: State)
    requires f.protoType.MessageType? && f.optionCodeType.None? && f.rule != Repeated
    ensures FieldReaderCode(f, options).Success?
    ensures var s := f.protoType.symbol.fullSerializerType;
      var name := f.csName;
      var merge := Step(Evaluate(DecodeInto(s, Member(name))), st);
      Run(FieldReaderCode(f, options).value.code, env, st)
      == if f.optionReadOnly then merge
         else match f.protoType.symbol.optionType
           case Struct =>
             if options.nullable then Step(Assign(name, DecodeFresh(s)), st)
             else Step(Evaluate(DecodeInto(s, RefMember(name))), st)
           case Class => if env.memberIsNull then Step(Assign(name, DecodeFresh(s)), st) else merge
           case Interface => if env.memberIsNull then Threw(NullInterface) else merge
  {
    var code := FieldReaderCode(f, options).value.code;
    assert |code| == 1;
    RunOne(code[0], env, st);
  }

  /** A repeated message field is always decoded fresh, one element per read. */
  lemma RepeatedMessageDecode(f: Field, options: Options)
    requires f.protoType.MessageType? && f.optionCodeType.None? && f.rule == Repeated && !IsInterface(f.protoType)
    ensures var decoded := DecodeFresh(f.protoType.symbol.fullSerializerType);
      FieldReaderCode(f, options)
      == Success(Emitted(if f.optionPacked then PackedReaderCode(f.id, f.csName, decoded)
                         else [Do(AddTo(f.csName, decoded))], true))
  {
  }

  /**
   * The DateTime and TimeSpan aliases are accepted exactly on the four
   * 64-bit integer types and wrap the read in a conversion from ticks; any
   * other alias is an enum and casts the read; no alias leaves it as it is.
   */
  lemma CodeTypeReading(f: Field, options: Options, instance: Option<Target>)
    ensures var r := FieldReaderType(f, options, instance);
      var p := FieldReaderPrimitive(f, instance);
      && (f.optionCodeType.None? ==> r == p)
      && (f.optionCodeType == Some("DateTime") ==>
            if IsSixtyFourBitInteger(f.protoType) then p.Success? && r == Success(NewDateTime(Cast("long", p.value), options.utc))
            else r == Failure(ProtoFormat(DateTimeNot64Bit)))
      && (f.optionCodeType == Some("TimeSpan") ==>
            if IsSixtyFourBitInteger(f.protoType) then p.Success? && r == Success(NewTimeSpan(Cast("long", p.value)))
            else r == Failure(ProtoFormat(TimeSpanNot64Bit)))
      && (f.optionCodeType.Some? && f.optionCodeType.value != "DateTime" && f.optionCodeType.value != "TimeSpan" ==>
            (r.Success? <==> p.Success?)
            && (p.Success? ==> r.value == Cast(f.optionCodeType.value, p.value))
            && (p.Failure? ==> r.error == p.error))
  {
  }

  // ---------------------------------------------------------------------------------------------
  // Packed decoding

  /** The number of bytes the chunks take. */
  function Sizes(cs: seq<Chunk>): nat
  {
    if cs == [] then 0 else cs[0].size + Sizes(cs[1..])
  }

  /** Starting at `pos`, every proper prefix of `cs` ends before `end` and the whole reaches it. */
  predicate Reaches(pos: int, end: int, cs: seq<Chunk>) {
    && (forall k :: 0 <= k < |cs| ==> pos + Sizes(cs[..k]) < end)
    && pos + Sizes(cs) >= end
  }

  lemma SizesFront(cs: seq<Chunk>, k: nat)
    requires k < |cs|
    ensures Sizes(cs[..k + 1]) == cs[0].size + Sizes(cs[1..][..k])
  {
    assert cs[..k + 1][1..] == cs[1..][..k];
  }

  /** The packed loop reads the elements that bring the position to `end` or past it, and stops. */
  lemma {:induction false} PackedLoopRun(id: int, list: string, e: Expr, env: Env, st: State,
                                         elems: seq<Chunk>, rest: seq<Chunk>)
    requires st.input == elems + rest && Reaches(st.pos, st.end, elems)
    ensures RunWhile(BeforeEnd(id), [Do(AddTo(list, e))], env, st)
         == Completed(st.(pos := st.pos + Sizes(elems), input := rest,
                          trace := st.trace + Repeat([AddTo(list, e)], |elems|)))
    decreases |elems|
  {
    if elems == [] {
      assert st.input == rest;
      assert st.trace + Repeat([AddTo(list, e)], 0) == st.trace;
    } else {
      assert elems[..0] == [];
      var next := st.(pos := st.pos + elems[0].size, input := st.input[1..], trace := st.trace + [AddTo(list, e)]);
      RunOne(Do(AddTo(list, e)), env, st);
      assert next.input == elems[1..] + rest;
      forall k | 0 <= k < |elems[1..]| ensures next.pos + Sizes(elems[1..][..k]) < next.end {
        SizesFront(elems, k);
      }
      PackedLoopRun(id, list, e, env, next, elems[1..], rest);
      assert next.trace + Repeat([AddTo(list, e)], |elems| - 1) == st.trace + Repeat([AddTo(list, e)], |elems|);
    }
  }

  /**
   * Packed decoding reads the byte length, sets `end` to that length past
   * the position after it, and appends elements while the position is
   * before `end`. When the elements land exactly on `end`, all of them are
   * appended and decoding continues after them; when the last one runs
   * past `end`, the too-many-bytes error is thrown.
   */
  lemma PackedDecodeRun(id: int, list: string, e: Expr, env: Env, st: State,
                        len: nat, lenSize: nat, elems: seq<Chunk>, rest: seq<Chunk>)
    requires st.input == [Chunk(len, lenSize)] + elems + rest
    requires Reaches(st.pos + lenSize, st.pos + lenSize + len, elems)
    ensures var end := st.pos + lenSize + len;
      Run(PackedReaderCode(id, list, e), env, st)
      == if st.pos + lenSize + Sizes(elems) == end
         then Completed(State(end, end, rest, st.trace + [DeclareEnd(id), AdvanceEnd(id)] + Repeat([AddTo(list, e)], |elems|)))
         else Threw(PackedOvershoot)
  {
    var code := PackedReaderCode(id, list, e);
    var end := st.pos + lenSize + len;
    var s1 := st.(end := len, pos := st.pos + lenSize, input := elems + rest, trace := st.trace + [DeclareEnd(id)]);
    var s2 := s1.(end := end, trace := s1.trace + [AdvanceEnd(id)]);
    var s3 := s2.(pos := s2.pos + Sizes(elems), input := rest, trace := s2.trace + Repeat([AddTo(list, e)], |elems|));
    assert st.input[1..] == elems + rest;
    assert RunStmt(code[0], env, st) == Completed(s1);
    assert RunStmt(code[1], env, s1) == Completed(s2);
    PackedLoopRun(id, list, e, env, s2, elems, rest);
    assert RunStmt(code[2], env, s2) == Completed(s3);
    RunOne(code[3], env, s3);
    assert Run([code[3]], env, s3)
        == if s3.pos == end then Completed(s3) else Threw(PackedOvershoot);
    assert code == [code[0]] + ([code[1]] + ([code[2]] + [code[3]]));
    RunAppend([code[2]], [code[3]], env, s2);
    RunOne(code[2], env, s2);
    RunAppend([code[1]], [code[2]] + [code[3]], env, s1);
    RunOne(code[1], env, s1);
    RunAppend([code[0]], [code[1]] + ([code[2]] + [code[3]]), env, st);
    RunOne(code[0], env, st);
    TwoSteps(st.trace, DeclareEnd(id), AdvanceEnd(id), Repeat([AddTo(list, e)], |elems|));
  }

  lemma TwoSteps(t: seq<Op>, a: Op, b: Op, r: seq<Op>)
    ensures t + [a] + [b] + r == t + [a, b] + r
  {
    assert t + [a] + [b] == t + [a, b];
  }

  // ---------------------------------------------------------------------------------------------
  // Decoding and encoding agree

  /** The wire type that a read routine consumes. */
  function ReadWire(r: ReadOp): WireType
  {
    match r
    case BinaryDouble | BinaryUInt64 | BinaryInt64 => Fixed64
    case BinarySingle | BinaryUInt32 | BinaryInt32 => Fixed32
    case ReadString | ReadBytes => LengthDelimited
    case _ => Varint
  }

  /** The read routine inside a decoding expression, under its casts. */
  function ReadOpOf(e: Expr): Option<ReadOp>
  {
    match e
    case Read(op) => Some(op)
    case Cast(_, inner) => ReadOpOf(inner)
    case _ => None
  }

  /** A read routine and the write statement that produces what it reads. */
  predicate Pairs(r: ReadOp, w: Op) {
    match r
    case ReadUInt64 => w.Write? && w.call.WriteUInt64?
    case ReadUInt32 => w.Write? && w.call.WriteUInt32?
    case ReadZInt32 => w.Write? && w.call.WriteZInt32?
    case ReadZInt64 => w.Write? && w.call.WriteZInt64?
    case ReadBool => w.Write? && w.call.WriteBool?
    case ReadString => w.Write? && w.call.WriteBytes? && w.call.utf8
    case ReadBytes => w.Write? && w.call.WriteBytes? && !w.call.utf8
    case _ => w.BinaryWrite?
  }

  /**
   * For a builtin or enum field, decoding and encoding succeed for the
   * same types; the one read routine and the one write statement belong
   * together, and both use the wire type the key announces. An unknown
   * builtin name is a format error when reading and unimplemented when writing.
   */
  lemma ScalarCodecsAgree(f: Field, instance: Option<Target>, sink: Sink, writer: BinaryWriterName, v: Value)
    requires !f.protoType.MessageType?
    ensures FieldReaderPrimitive(f, instance).Success? <==> FieldWriterPrimitive(f, sink, writer, v).Success?
    ensures FieldReaderPrimitive(f, instance).Failure? ==>
      && f.protoType.Builtin? && ScalarOf(f.protoType.protoName).None?
      && FieldReaderPrimitive(f, instance).error == ProtoFormat(UnknownBuiltin(f.protoType.protoName))
      && FieldWriterPrimitive(f, sink, writer, v).error == NotImplemented
    ensures FieldReaderPrimitive(f, instance).Success? ==>
      var r := ReadOpOf(FieldReaderPrimitive(f, instance).value);
      var ops := FieldWriterPrimitive(f, sink, writer, v).value;
      && r.Some? && |ops| == 1 && Pairs(r.value, ops[0])
      && ReadWire(r.value) == WireTypeOf(f.protoType)
  {
    if f.protoType.Builtin? && ScalarOf(f.protoType.protoName).Some? {
      ScalarPairs(ScalarOf(f.protoType.protoName).value, sink, writer, v);
    }
  }

  /**
   * A `DateTime` or `TimeSpan` field on a 64-bit type: the reader rebuilds the
   * value from the ticks it reads (as UTC exactly when the writer converts to
   * universal time first), the writer writes the ticks, and the tick read and
   * the tick write are a matching pair.
   */
  lemma TicksCodecsAgree(f: Field, options: Options, instance: Option<Target>, sink: Sink, writer: BinaryWriterName, v: Value)
    requires f.optionCodeType == Some("DateTime") || f.optionCodeType == Some("TimeSpan")
    requires IsSixtyFourBitInteger(f.protoType)
    ensures FieldReaderPrimitive(f, instance).Success?
    ensures FieldReaderType(f, options, instance).Success? && FieldWriterTypeCode(f, options, sink, writer, v).Success?
    ensures var ticks := FieldReaderPrimitive(f, instance).value;
      var e := FieldReaderType(f, options, instance).value;
      if f.optionCodeType == Some("DateTime") then
        && e == NewDateTime(Cast("long", ticks), options.utc)
        && FieldWriterTypeCode(f, options, sink, writer, v)
           == FieldWriterPrimitive(f, sink, writer, if options.utc then UtcTicks(v) else Ticks(v))
      else
        && e == NewTimeSpan(Cast("long", ticks))
        && FieldWriterTypeCode(f, options, sink, writer, v) == FieldWriterPrimitive(f, sink, writer, Ticks(v))
    ensures var ops := FieldWriterTypeCode(f, options, sink, writer, v).value;
      var r := ReadOpOf(FieldReaderPrimitive(f, instance).value);
      r.Some? && |ops| == 1 && Pairs(r.value, ops[0])
  {
    ScalarCodecsAgree(f, instance, sink, writer, TypedValue(f, options, v));
  }

  /** The read and the write of each scalar type belong together and use the scalar's wire type. */
  lemma ScalarPairs(s: Scalar, sink: Sink, writer: BinaryWriterName, v: Value)
    ensures ReadOpOf(ScalarReader(s)).Some?
    ensures Pairs(ReadOpOf(ScalarReader(s)).value, ScalarWriter(s, sink, writer, v))
    ensures ReadWire(ReadOpOf(ScalarReader(s)).value) == ScalarWire(s)
  {
  }

  /**
   * A message field is decoded and encoded by the same serializer, and
   * written as a length-delimited record: the message into the cleared
   * scratch buffer, then its length and its bytes.
   */
  lemma MessageCodecsAgree(f: Field, instance: Option<Target>, sink: Sink, writer: BinaryWriterName, v: Value)
    requires f.protoType.MessageType?
    ensures FieldReaderPrimitive(f, instance).Success? && FieldWriterPrimitive(f, sink, writer, v).Success?
    ensures var e := FieldReaderPrimitive(f, instance).value;
      var ops := FieldWriterPrimitive(f, sink, writer, v).value;
      && (e.DecodeFresh? || e.DecodeInto?)
      && ops == [ClearBuffer, Serialize(e.serializer, v)] + BytesWriterOps(f.id, sink)
      && WireTypeOf(f.protoType) == LengthDelimited
  {
  }
}

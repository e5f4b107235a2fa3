/**
 * The C# that the field serializer emits, kept as structure rather than
 * text: the leaf statements (`Op`), the blocks around them (`Stmt`), the
 * lines a `CodeWriter` holds once the blocks are laid out (`Line`), and a
 * small run-time reading of the statements (`Run`) against one field's
 * state and an abstract input stream.
 */
module GeneratedCode {
  import opened WireFormat

  /** A primitive read, from the runtime library over `stream` or from the `BinaryReader` `br`. */
  datatype ReadOp =
    | ReadUInt64 | ReadUInt32 | ReadZInt32 | ReadZInt64 | ReadBool | ReadString | ReadBytes
    | BinaryDouble | BinarySingle | BinaryUInt32 | BinaryUInt64 | BinaryInt32 | BinaryInt64

  /** Where a decoded message goes: `instance.<name>`, or `ref instance.<name>` for a struct. */
  datatype Target = Member(name: string) | RefMember(name: string)

  /** A decoding expression; each one reads exactly one value from the stream. */
  datatype Expr =
    | Read(op: ReadOp)
    | Cast(typeName: string, e: Expr)
    | DecodeFresh(serializer: string)
    | DecodeInto(serializer: string, target: Target)
    | NewDateTime(ticks: Expr, utc: bool)
    | NewTimeSpan(ticks: Expr)

  /** A value the encoder writes. */
  datatype Value =
    | InstanceMember(name: string)          // instance.<name>
    | Element(id: int)                      // i<id>, the loop variable over a repeated field
    | NullableValue(v: Value)               // <v>.Value
    | Ticks(v: Value)                       // <v>.Ticks
    | UtcTicks(v: Value)                    // the ticks of <v> converted to UTC
    | LengthOf(id: int)                     // length<id>
    | PackedSize(size: int, list: string)   // <size>u * (uint)instance.<list>.Count

  /** A runtime-library write call. */
  datatype WriteCall =
    | WriteUInt64(v: Value, toULong: bool)  // toULong: the value is cast to ulong first
    | WriteUInt32(v: Value)
    | WriteZInt32(v: Value)
    | WriteZInt64(v: Value)
    | WriteBool(v: Value)
    | WriteBytes(v: Value, utf8: bool)      // utf8: a string, encoded to UTF-8 first

  /** The stream an encoder writes to: the output `stream` or the scratch buffer `msField`. */
  datatype Sink = Stream | MsField

  /** The binary writer used for fixed-size values: the shared `bw` or a field's own `bw<id>`. */
  datatype BinaryWriterName = SharedWriter | OwnWriter(id: int)

  /** The exceptions the generated code can throw at run time. */
  datatype RuntimeError =
    | ListOfInterfaces        // a repeated field of interface type cannot be decoded
    | ReadOnlyPrimitive       // a readonly field that is not a message cannot be decoded into
    | NullInterface           // an interface-typed field is null and cannot be created
    | PackedOvershoot         // packed data ran past the announced length
    | RequiredMissing(name: string)
    | EndOfStream             // raised by the runtime library when the input ends

  /** A condition tested by generated code. */
  datatype Cond =
    | NotNull(name: string)                 // instance.<name> != null
    | IsNull(name: string)                  // instance.<name> == null
    | NotDefault(name: string, literal: string)
    | BeforeEnd(id: int)                    // stream.Position < end<id>
    | NotAtEnd(id: int)                     // stream.Position != end<id>

  /** A leaf statement. */
  datatype Op =
    | Throw(error: RuntimeError)
    | DeclareEnd(id: int)                   // long end<id> = <uint32 read from stream>;
    | AdvanceEnd(id: int)                   // end<id> += stream.Position;
    | AddTo(list: string, e: Expr)          // instance.<list>.Add(<e>);
    | Assign(member: string, e: Expr)       // instance.<member> = <e>;
    | Evaluate(e: Expr)                     // <e>;  (a decode into an existing target)
    | WriteByte(sink: Sink, b: byte)
    | Write(sink: Sink, call: WriteCall)
    | BinaryWrite(writer: BinaryWriterName, v: Value)
    | ClearBuffer                           // msField.SetLength(0);
    | NewBinaryWriter(id: int)              // BinaryWriter bw<id> = new BinaryWriter(ms<id>);
    | Serialize(serializer: string, v: Value)  // <serializer>.Serialize(msField, <v>);
    | DeclareLength(id: int)                // uint length<id> = (uint)msField.Length;
    | CopyBuffer(sink: Sink)                // msField.WriteTo(<sink>);

  /** A statement: a leaf, a braced block, or a brace-less `if` guarding a single leaf. */
  datatype Stmt =
    | Do(op: Op)
    | If(cond: Cond, body: seq<Stmt>)
    | ForEach(id: int, list: string, body: seq<Stmt>)
    | While(cond: Cond, body: seq<Stmt>)
    | IfThen(cond: Cond, guarded: Op)
    | IfElse(cond: Cond, guarded: Op, otherwise: Op)

  /** Leaf statements, in order. */
  function Simple(ops: seq<Op>): seq<Stmt>
  {
    if ops == [] then [] else [Do(ops[0])] + Simple(ops[1..])
  }

  // ---------------------------------------------------------------------------------------------
  // Layout: the lines a CodeWriter receives.

  /** One line of output: a leaf, a block opener or closer, or the head of a brace-less if/else. */
  datatype Line =
    | Emit(op: Op)
    | BeginIf(cond: Cond)
    | BeginForEach(id: int, list: string)
    | BeginWhile(cond: Cond)
    | EndBlock
    | When(cond: Cond)
    | Else

  function Emits(ops: seq<Op>): seq<Line>
  {
    if ops == [] then [] else [Emit(ops[0])] + Emits(ops[1..])
  }

  function Lines(ss: seq<Stmt>): seq<Line>
    decreases ss
  {
    if ss == [] then [] else StmtLines(ss[0]) + Lines(ss[1..])
  }

  function StmtLines(s: Stmt): seq<Line>
    decreases s
  {
    match s
    case Do(op) => [Emit(op)]
    case If(c, body) => [BeginIf(c)] + Lines(body) + [EndBlock]
    case ForEach(id, list, body) => [BeginForEach(id, list)] + Lines(body) + [EndBlock]
    case While(c, body) => [BeginWhile(c)] + Lines(body) + [EndBlock]
    case IfThen(c, a) => [When(c), Emit(a)]
    case IfElse(c, a, b) => [When(c), Emit(a), Else, Emit(b)]
  }

  lemma {:induction false} LinesAppend(a: seq<Stmt>, b: seq<Stmt>)
    ensures Lines(a + b) == Lines(a) + Lines(b)
    decreases a
  {
    if a == [] {
      assert a + b == b;
    } else {
      assert (a + b)[0] == a[0];
      assert (a + b)[1..] == a[1..] + b;
      LinesAppend(a[1..], b);
    }
  }

  lemma {:induction false} EmitsAppend(a: seq<Op>, b: seq<Op>)
    ensures Emits(a + b) == Emits(a) + Emits(b)
    decreases a
  {
    if a == [] {
      assert a + b == b;
    } else {
      assert (a + b)[0] == a[0];
      assert (a + b)[1..] == a[1..] + b;
      EmitsAppend(a[1..], b);
    }
  }

  lemma {:induction false} SimpleAppend(a: seq<Op>, b: seq<Op>)
    ensures Simple(a + b) == Simple(a) + Simple(b)
    decreases a
  {
    if a == [] {
      assert a + b == b;
    } else {
      assert (a + b)[0] == a[0];
      assert (a + b)[1..] == a[1..] + b;
      SimpleAppend(a[1..], b);
    }
  }

  lemma {:induction false} LinesOfSimple(ops: seq<Op>)
    ensures Lines(Simple(ops)) == Emits(ops)
    decreases ops
  {
    if ops != [] {
      assert Simple(ops)[0] == Do(ops[0]);
      assert Simple(ops)[1..] == Simple(ops[1..]);
      LinesOfSimple(ops[1..]);
    }
  }

  /** The nesting depth change of a run of lines. */
  function Depth(ls: seq<Line>): int
  {
    if ls == [] then 0
    else
      var d := match ls[|ls| - 1]
        case BeginIf(_) => 1
        case BeginForEach(_, _) => 1
        case BeginWhile(_) => 1
        case EndBlock => -1
        case _ => 0;
      Depth(ls[..|ls| - 1]) + d
  }

  /** Every block closed is open, and every block opened is closed. */
  ghost predicate Balanced(ls: seq<Line>) {
    Depth(ls) == 0 && forall k :: 0 <= k <= |ls| ==> Depth(ls[..k]) >= 0
  }

  lemma {:induction false} DepthAppend(a: seq<Line>, b: seq<Line>)
    ensures Depth(a + b) == Depth(a) + Depth(b)
    decreases |b|
  {
    if b == [] {
      assert a + b == a;
    } else {
      assert (a + b)[..|a + b| - 1] == a + b[..|b| - 1];
      DepthAppend(a, b[..|b| - 1]);
    }
  }

  lemma BalancedAppend(a: seq<Line>, b: seq<Line>)
    requires Balanced(a) && Balanced(b)
    ensures Balanced(a + b)
  {
    DepthAppend(a, b);
    forall k | 0 <= k <= |a + b| ensures Depth((a + b)[..k]) >= 0 {
      if k <= |a| {
        assert (a + b)[..k] == a[..k];
      } else {
        assert (a + b)[..k] == a + b[..k - |a|];
        DepthAppend(a, b[..k - |a|]);
      }
    }
  }

  lemma BalancedBlock(head: Line, inner: seq<Line>)
    requires head.BeginIf? || head.BeginForEach? || head.BeginWhile?
    requires Balanced(inner)
    ensures Balanced([head] + inner + [EndBlock])
  {
    var ls := [head] + inner + [EndBlock];
    DepthAppend([head], inner);
    DepthAppend([head] + inner, [EndBlock]);
    assert Depth([head]) == 1 by {
      assert [head][..0] == [];
    }
    assert Depth([EndBlock]) == -1 by {
      assert [EndBlock][..0] == [];
    }
    forall k | 0 <= k <= |ls| ensures Depth(ls[..k]) >= 0 {
      if k == 0 {
        assert ls[..k] == [];
      } else if k <= |inner| + 1 {
        assert ls[..k] == [head] + inner[..k - 1];
        DepthAppend([head], inner[..k - 1]);
      } else {
        assert ls[..k] == ls;
      }
    }
  }

  lemma FlatBalanced(ls: seq<Line>)
    requires forall i :: 0 <= i < |ls| ==> ls[i].Emit? || ls[i].When? || ls[i].Else?
    ensures Balanced(ls)
  {
    assert forall k :: 0 <= k <= |ls| ==> Depth(ls[..k]) == 0 by {
      forall k | 0 <= k <= |ls| ensures Depth(ls[..k]) == 0 {
        FlatDepth(ls[..k]);
      }
    }
    assert ls[..|ls|] == ls;
  }

  lemma {:induction false} FlatDepth(ls: seq<Line>)
    requires forall i :: 0 <= i < |ls| ==> ls[i].Emit? || ls[i].When? || ls[i].Else?
    ensures Depth(ls) == 0
    decreases |ls|
  {
    if ls != [] {
      FlatDepth(ls[..|ls| - 1]);
    }
  }

  /** Laid out, every statement list opens and closes its blocks in matching pairs. */
  lemma {:induction false} LinesBalanced(ss: seq<Stmt>)
    ensures Balanced(Lines(ss))
    decreases ss
  {
    if ss == [] {
      FlatBalanced(Lines(ss));
    } else {
      StmtBalanced(ss[0]);
      LinesBalanced(ss[1..]);
      BalancedAppend(StmtLines(ss[0]), Lines(ss[1..]));
    }
  }

  lemma {:induction false} StmtBalanced(s: Stmt)
    ensures Balanced(StmtLines(s))
    decreases s
  {
    match s
    case Do(op) => FlatBalanced(StmtLines(s));
    case If(c, body) => LinesBalanced(body); BalancedBlock(BeginIf(c), Lines(body));
    case ForEach(id, list, body) => LinesBalanced(body); BalancedBlock(BeginForEach(id, list), Lines(body));
    case While(c, body) => LinesBalanced(body); BalancedBlock(BeginWhile(c), Lines(body));
    case IfThen(c, a) => FlatBalanced(StmtLines(s));
    case IfElse(c, a, b) => FlatBalanced(StmtLines(s));
  }

  /** The output buffer the generator writes into, one line at a time. */
  class CodeWriter {
    var lines: seq<Line>

    constructor()
      ensures lines == []
    {
      lines := [];
    }

    method WriteLine(l: Line)
      modifies this
      ensures lines == old(lines) + [l]
    {
      lines := lines + [l];
    }

    /** Writes a chunk of leaf statements produced elsewhere, as one call. */
    method WriteOps(ops: seq<Op>)
      modifies this
      ensures lines == old(lines) + Emits(ops)
    {
      lines := lines + Emits(ops);
    }
  }

  // ---------------------------------------------------------------------------------------------
  // Run-time reading of generated statements.

  /** One value on the input stream: its decoded value and the number of bytes it takes. */
  datatype Chunk = Chunk(value: nat, size: nat)

  /** The state of the field the code works on: null, equal to its default, and its number of elements. */
  datatype Env = Env(memberIsNull: bool, memberIsDefault: bool, elements: nat)

  /** The run-time state: stream position, the `end` variable, the unread input and what has been done. */
  datatype State = State(pos: int, end: int, input: seq<Chunk>, trace: seq<Op>)

  datatype Outcome = Completed(st: State) | Threw(error: RuntimeError) | Diverged

  predicate Holds(c: Cond, env: Env, st: State) {
    match c
    case NotNull(_) => !env.memberIsNull
    case IsNull(_) => env.memberIsNull
    case NotDefault(_, _) => !env.memberIsDefault
    case BeforeEnd(_) => st.pos < st.end
    case NotAtEnd(_) => st.pos != st.end
  }

  /** Reads one value: the end of the input raises an exception. */
  function Consume(op: Op, st: State): Outcome {
    if st.input == [] then Threw(EndOfStream)
    else Completed(st.(pos := st.pos + st.input[0].size, input := st.input[1..], trace := st.trace + [op]))
  }

  function Step(op: Op, st: State): Outcome {
    match op
    case Throw(e) => Threw(e)
    case DeclareEnd(_) =>
      if st.input == [] then Threw(EndOfStream)
      else Completed(st.(end := st.input[0].value, pos := st.pos + st.input[0].size,
                         input := st.input[1..], trace := st.trace + [op]))
    case AdvanceEnd(_) => Completed(st.(end := st.end + st.pos, trace := st.trace + [op]))
    case AddTo(_, _) => Consume(op, st)
    case Assign(_, _) => Consume(op, st)
    case Evaluate(_) => Consume(op, st)
    case _ => Completed(st.(trace := st.trace + [op]))
  }

  function Run(ss: seq<Stmt>, env: Env, st: State): Outcome
    decreases ss, 0
  {
    if ss == [] then Completed(st)
    else
      match RunStmt(ss[0], env, st)
      case Completed(next) => Run(ss[1..], env, next)
      case other => other
  }

  function RunStmt(s: Stmt, env: Env, st: State): Outcome
    decreases s, 0
  {
    match s
    case Do(op) => Step(op, st)
    case If(c, body) => if Holds(c, env, st) then Run(body, env, st) else Completed(st)
    case ForEach(_, _, body) => RunEach(body, env.elements, env, st)
    case While(c, body) => RunWhile(c, body, env, st)
    case IfThen(c, a) => if Holds(c, env, st) then Step(a, st) else Completed(st)
    case IfElse(c, a, b) => if Holds(c, env, st) then Step(a, st) else Step(b, st)
  }

  /** A `foreach` over the field's elements runs its body once per element. */
  function RunEach(body: seq<Stmt>, n: nat, env: Env, st: State): Outcome
    decreases body, n + 1
  {
    if n == 0 then Completed(st)
    else
      match Run(body, env, st)
      case Completed(next) => RunEach(body, n - 1, env, next)
      case other => other
  }

  /** A `while` loop; a pass that reads nothing would never end. */
  function RunWhile(c: Cond, body: seq<Stmt>, env: Env, st: State): Outcome
    decreases body, |st.input| + 1
  {
    if !Holds(c, env, st) then Completed(st)
    else
      match Run(body, env, st)
      case Completed(next) =>
        if |next.input| < |st.input| then RunWhile(c, body, env, next) else Diverged
      case other => other
  }
}

/**
 * The message and enum declarations of a schema: a message's serializer
 * names, its wire type and constant size, the folds over its fields, and
 * the recursive marking of imported declarations.
 */
module ProtoMessages {
  import opened Wrappers
  import opened WireFormat
  import opened ProtoTypes

  /** Sum of the constant wire sizes of `fields`, taken from the last field backwards. */
  function SumWireSizes(fields: seq<Field>): int
  {
    if |fields| == 0 then 0
    else SumWireSizes(fields[..|fields| - 1]) + WireSizeOf(fields[|fields| - 1].protoType)
  }

  /** Some field of `fields` has a variable size. */
  predicate HasVariableField(fields: seq<Field>) {
    exists i :: 0 <= i < |fields| && WireSizeOf(fields[i].protoType) < 0
  }

  /**
   * The constant size of a message with these fields: -1 as soon as one
   * field varies in size, the sum of the sizes otherwise.
   */
  function FieldsWireSize(fields: seq<Field>): (size: int)
    ensures size == -1 <==> HasVariableField(fields)
    ensures !HasVariableField(fields) ==> size == SumWireSizes(fields) && size >= 0
  {
    if |fields| == 0 then 0
    else
      var front := FieldsWireSize(fields[..|fields| - 1]);
      var last := WireSizeOf(fields[|fields| - 1].protoType);
      if front < 0 || last < 0 then -1 else front + last
  }

  /** The largest `bufferSizeScan` of `fields`, and 0 when none is larger. */
  function MaxBufferSizeScan(fields: seq<Field>): (size: int)
    ensures size >= 0
    ensures forall i :: 0 <= i < |fields| ==> fields[i].bufferSizeScan <= size
    ensures size == 0 || exists i :: 0 <= i < |fields| && fields[i].bufferSizeScan == size
  {
    if |fields| == 0 then 0
    else
      var front := MaxBufferSizeScan(fields[..|fields| - 1]);
      var last := fields[|fields| - 1].bufferSizeScan;
      if front < last then last else front
  }

  /** The field table of a message: each field under its own number. */
  function FieldTable(fields: seq<Field>): (table: map<int, Field>)
    requires UniqueIds(fields)
    ensures table.Keys == set i | 0 <= i < |fields| :: fields[i].id
    ensures forall i :: 0 <= i < |fields| ==> table[fields[i].id] == fields[i]
  {
    if |fields| == 0 then map[]
    else
      var front := fields[..|fields| - 1];
      var last := fields[|fields| - 1];
      assert fields == front + [last];
      assert (set i | 0 <= i < |fields| :: fields[i].id) == (set i | 0 <= i < |front| :: front[i].id) + {last.id};
      FieldTable(front)[last.id := last]
  }

  /**
   * The values of the field table are exactly the fields: iterating the
   * sequence visits what iterating the table's values visits.
   */
  lemma FieldTableValues(fields: seq<Field>)
    requires UniqueIds(fields)
    ensures FieldTable(fields).Values == set i | 0 <= i < |fields| :: fields[i]
  {
    var table := FieldTable(fields);
    forall f <- table.Values ensures exists i :: 0 <= i < |fields| && fields[i] == f {
      var id :| id in table && table[id] == f;
      var i :| 0 <= i < |fields| && fields[i].id == id;
    }
  }

  /** The representation, external flag and buffer size of every message in `ms` are as they were. */
  twostate predicate OptionsKept(ms: set<ProtoMessage>)
    reads ms
  {
    forall m <- ms :: m.optionType == old(m.optionType) && m.optionExternal == old(m.optionExternal) && m.bufferSize == old(m.bufferSize)
  }

  class ProtoEnum {
    const csType: string
    const fullCsType: string
    var imported: bool

    constructor(csType: string, fullCsType: string)
      ensures this.csType == csType && this.fullCsType == fullCsType && !imported
    {
      this.csType := csType;
      this.fullCsType := fullCsType;
      imported := false;
    }

    method MarkImported()
      modifies this`imported
      ensures imported
    {
      imported := true;
    }
  }

  class ProtoMessage {
    const csType: string
    const fullCsType: string
    /** The fields in declaration order; the source keeps them in a table keyed by field number. */
    const fields: seq<Field>
    const messages: map<string, ProtoMessage>
    const enums: map<string, ProtoEnum>

    var optionType: OptionType
    var optionExternal: bool
    /** The buffer size given in the schema, 0 when none was given. */
    var bufferSize: int
    var imported: bool

    /** The messages declared directly inside this one (the values of `messages`). */
    ghost const Children: set<ProtoMessage>
    /** Every message declared inside this one, at any depth. */
    ghost const Descendants: set<ProtoMessage>
    /** Every enum declared inside this message or inside a descendant. */
    ghost const NestedEnums: set<ProtoEnum>

    /**
     * Membership in `Descendants` and `NestedEnums`, under names of their own: the
     * covering clauses of `Valid` fire only on these, which keeps the solver from
     * chasing the nested message that covers a descendant down the whole tree.
     */
    ghost predicate Below(d: ProtoMessage) { d in Descendants }
    ghost predicate BelowEnum(e: ProtoEnum) { e in NestedEnums }

    /** Field numbers are unique and the nested declarations form a tree below this message. */
    ghost predicate Valid()
      decreases Descendants
    {
      && UniqueIds(fields)
      && this !in Descendants
      && Children == messages.Values
      && Children <= Descendants
      && enums.Values <= NestedEnums
      && (forall d {:trigger Below(d)} | d in Descendants :: d in Children || exists m <- Children :: d in m.Descendants)
      && (forall e {:trigger BelowEnum(e)} | e in NestedEnums :: e in enums.Values || exists m <- Children :: e in m.NestedEnums)
      && (forall m <- Children ::
            m.Descendants < Descendants && m.NestedEnums <= NestedEnums && m.Valid())
    }

    /** A new message is a class unless an option later says otherwise. */
    constructor(csType: string, fullCsType: string, fields: seq<Field>,
                messages: map<string, ProtoMessage>, enums: map<string, ProtoEnum>)
      requires UniqueIds(fields)
      requires forall m <- messages.Values :: m.Valid()
      ensures Valid()
      ensures this.csType == csType && this.fullCsType == fullCsType
      ensures this.fields == fields && this.messages == messages && this.enums == enums
      ensures optionType == Class && !optionExternal && bufferSize == 0 && !imported
    {
      this.csType := csType;
      this.fullCsType := fullCsType;
      this.fields := fields;
      this.messages := messages;
      this.enums := enums;
      Children := messages.Values;
      Descendants := messages.Values + (set m, d | m in messages.Values && d in m.Descendants :: d);
      NestedEnums := enums.Values + (set m, e | m in messages.Values && e in m.NestedEnums :: e);
      optionType := Class;
      optionExternal := false;
      bufferSize := 0;
      imported := false;
    }

    /** A message is always framed as a length-delimited record. */
    function WireType(): (w: WireType)
      ensures w == LengthDelimited
    {
      LengthDelimited
    }

    /** Serialization code lives in a separate "...Serializer" class for external and interface messages. */
    predicate HasSerializerClass()
      reads this
    {
      optionExternal || optionType == Interface
    }

    function SerializerType(): (name: string)
      reads this
      ensures HasSerializerClass() ==> name == csType + "Serializer"
      ensures !HasSerializerClass() ==> name == csType
    {
      if HasSerializerClass() then csType + "Serializer" else csType
    }

    function FullSerializerType(): (name: string)
      reads this
      ensures HasSerializerClass() ==> name == fullCsType + "Serializer"
      ensures !HasSerializerClass() ==> name == fullCsType
    {
      if HasSerializerClass() then fullCsType + "Serializer" else fullCsType
    }

    /** How fields that have this message as their type refer to it. */
    function Symbol(): MessageSymbol
      reads this
    {
      MessageSymbol(FullSerializerType(), optionType, FieldsWireSize(fields))
    }

    method IsUsingBinaryWriter() returns (using: bool)
      ensures using <==> exists i :: 0 <= i < |fields| && fields[i].isUsingBinaryWriter
    {
      for i := 0 to |fields|
        invariant forall j :: 0 <= j < i ==> !fields[j].isUsingBinaryWriter
      {
        if fields[i].isUsingBinaryWriter {
          return true;
        }
      }
      return false;
    }

    /** The buffer size of the largest field. */
    method MaxFieldBufferSize() returns (size: int)
      ensures bufferSize > 0 ==> size == bufferSize
      ensures bufferSize <= 0 ==> size == MaxBufferSizeScan(fields)
    {
      if bufferSize > 0 {
        return bufferSize;
      }
      size := 0;
      for i := 0 to |fields|
        invariant size == MaxBufferSizeScan(fields[..i])
      {
        assert fields[..i + 1][..i] == fields[..i];
        size := if size < fields[i].bufferSizeScan then fields[i].bufferSizeScan else size;
      }
      assert fields[..|fields|] == fields;
    }

    /** The size of the message when every field has a constant size, -1 otherwise. */
    method WireSize() returns (totalSize: int)
      ensures totalSize == FieldsWireSize(fields)
    {
      totalSize := 0;
      for i := 0 to |fields|
        invariant totalSize == FieldsWireSize(fields[..i]) && totalSize >= 0
      {
        assert fields[..i + 1][..i] == fields[..i];
        var size := WireSizeOf(fields[i].protoType);
        if size < 0 {
          assert fields[..i + 1] == fields[..i] + [fields[i]];
          assert HasVariableField(fields) by {
            assert WireSizeOf(fields[i].protoType) < 0;
          }
          return -1;
        }
        totalSize := totalSize + size;
      }
      assert fields[..|fields|] == fields;
    }

    /** Everything below this message is a nested message, below one, or an enum of one of them. */
    lemma TreeCovered()
      requires Valid()
      ensures forall d <- Descendants :: d in Children || exists m <- Children :: d in m.Descendants
      ensures forall e <- NestedEnums :: e in enums.Values || exists m <- Children :: e in m.NestedEnums
    {
      forall d <- Descendants ensures d in Children || exists m <- Children :: d in m.Descendants {
        assert Below(d);
      }
      forall e <- NestedEnums ensures e in enums.Values || exists m <- Children :: e in m.NestedEnums {
        assert BelowEnum(e);
      }
    }

    /** Marks this message, every nested message and every nested enum as imported. */
    method MarkImported()
      requires Valid()
      modifies this`imported, Descendants`imported, NestedEnums`imported
      ensures imported
      ensures forall m <- Descendants :: m.imported
      ensures forall e <- NestedEnums :: e.imported
      ensures OptionsKept({this} + Descendants)
      decreases Descendants, 1
    {
      imported := true;
      MarkNestedMessages();
      MarkOwnEnums();
    }

    /** The loop over the nested messages: each marks itself and everything below it. */
    method MarkNestedMessages()
      requires Valid()
      modifies Descendants`imported, NestedEnums`imported
      ensures forall m <- Descendants :: m.imported
      ensures forall e <- NestedEnums :: e in enums.Values || e.imported
      ensures OptionsKept(Descendants)
      decreases Descendants, 0
    {
      // `marked` and `markedEnums` collect what has been marked so far.
      ghost var marked: set<ProtoMessage> := {};
      ghost var markedEnums: set<ProtoEnum> := {};
      var pending := messages.Values;
      while pending != {}
        invariant pending <= Children
        invariant forall m <- Children - pending :: m in marked && m.Descendants <= marked && m.NestedEnums <= markedEnums
        invariant forall d <- marked :: d.imported
        invariant forall e <- markedEnums :: e.imported
        decreases pending
      {
        var m :| m in pending;
        ChildBelow(m);
        m.MarkImported();
        marked := marked + {m} + m.Descendants;
        markedEnums := markedEnums + m.NestedEnums;
        pending := pending - {m};
      }
      ChildrenCover(marked, markedEnums);
    }

    /** A nested message is a valid tree strictly inside this one. */
    lemma ChildBelow(m: ProtoMessage)
      requires Valid() && m in Children
      ensures m in Descendants && this !in m.Descendants
      ensures m.Descendants < Descendants && m.NestedEnums <= NestedEnums && m.Valid()
    {
    }

    /** Whatever holds each nested message, everything below it and their enums holds the whole tree. */
    lemma ChildrenCover(marked: set<ProtoMessage>, markedEnums: set<ProtoEnum>)
      requires Valid()
      requires forall m <- Children :: m in marked && m.Descendants <= marked && m.NestedEnums <= markedEnums
      ensures Descendants <= marked
      ensures forall e <- NestedEnums :: e in enums.Values || e in markedEnums
    {
      TreeCovered();
    }

    /** The loop over the enums declared directly in this message. */
    method MarkOwnEnums()
      modifies enums.Values`imported
      ensures forall e <- enums.Values :: e.imported
    {
      var pendingEnums := enums.Values;
      while pendingEnums != {}
        invariant pendingEnums <= enums.Values
        invariant forall e <- enums.Values - pendingEnums :: e.imported
        decreases pendingEnums
      {
        var e :| e in pendingEnums;
        e.MarkImported();
        pendingEnums := pendingEnums - {e};
      }
    }
  }

  /** A field whose type is a message sees that message's wire type, size, serializer and nullability. */
  lemma MessageFieldType(m: ProtoMessage)
    ensures WireTypeOf(MessageType(m.Symbol())) == m.WireType()
    ensures WireSizeOf(MessageType(m.Symbol())) == FieldsWireSize(m.fields)
    ensures MessageType(m.Symbol()).symbol.fullSerializerType == m.FullSerializerType()
    ensures TypeNullable(MessageType(m.Symbol())) <==> m.optionType != Struct
  {
  }

  /** The full serializer name extends the short one by the namespace that the full type name adds. */
  lemma SerializerNamesShareNamespace(m: ProtoMessage, namespace: string)
    requires m.fullCsType == namespace + m.csType
    ensures m.FullSerializerType() == namespace + m.SerializerType()
  {
  }
}

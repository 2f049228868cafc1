/** `DefinitionMetadataMessage`: the column (or parameter) definition the
    server sends before a result set, in its protocol 4.1 and protocol 3.20
    layouts, and the checks its constructor makes. */
module DefinitionMetadata {
  import opened Wrappers
  import opened JavaValues
  import opened ByteBufs

  /** `ColumnDefinition.of(short)`: the column flags, kept as the signed
      16-bit value they are decoded from. */
  datatype ColumnDefinition = ColumnDefinition(bitmap: int)

  datatype DefinitionMetadataMessage = DefinitionMetadataMessage(
    database: Option<string>, table: string, originTable: Option<string>,
    column: string, originColumn: Option<string>,
    collationId: int, size: int, typeId: int, definition: ColumnDefinition, decimals: int)

  /** What the decoders take from the connection: whether protocol 4.1 is in
      use, and the client collation's id and charset. */
  datatype ConnectionContext = ConnectionContext(protocol41: bool, clientCollationId: int, charset: Charset)

  const SIZE_MESSAGE := "size must not be a negative integer"
  const COLLATION_MESSAGE := "collationId must be a positive integer"
  const TABLE_MESSAGE := "table must not be null"
  const COLUMN_MESSAGE := "column must not be null"
  const DEFINITION_MESSAGE := "definition must not be null"

  /** The constructor, with its checks in order: size, collation id, and
      then the table, column and definition that must not be null. */
  function NewMessage(database: Option<string>, table: Option<string>, originTable: Option<string>,
                      column: Option<string>, originColumn: Option<string>, collationId: int, size: int,
                      typeId: int, definition: Option<ColumnDefinition>, decimals: int): (r: Outcome<DefinitionMetadataMessage>)
    ensures r.Ok? <==> size >= 0 && collationId > 0 && table.Some? && column.Some? && definition.Some?
    ensures r.Ok? ==>
      r.value == DefinitionMetadataMessage(database, table.value, originTable, column.value, originColumn,
                                           collationId, size, typeId, definition.value, decimals)
    ensures size < 0 ==> r == Err(IllegalArgument(SIZE_MESSAGE))
    ensures size >= 0 && collationId <= 0 ==> r == Err(IllegalArgument(COLLATION_MESSAGE))
  {
    if size < 0 then Err(IllegalArgument(SIZE_MESSAGE))
    else if collationId <= 0 then Err(IllegalArgument(COLLATION_MESSAGE))
    else if table.None? then Err(IllegalArgument(TABLE_MESSAGE))
    else if column.None? then Err(IllegalArgument(COLUMN_MESSAGE))
    else if definition.None? then Err(IllegalArgument(DEFINITION_MESSAGE))
    else Ok(DefinitionMetadataMessage(database, table.value, originTable, column.value, originColumn,
                                      collationId, size, typeId, definition.value, decimals))
  }

  // ------------------------------------------------------------ cursor specification

  /** `readVarIntSizedString`: a var-int length, narrowed to `int`, then
      that many bytes in the charset; a zero length is "" and reads no
      bytes. */
  function ReadSizedString(data: seq<byte>, at: nat, charset: Charset): (r: Outcome<(string, nat)>)
    ensures r.Ok? ==> r.value.1 >= at
  {
    var length :- ReadVarInt(data, at);
    var bytes := WrapInt(length.0);
    if bytes == 0 then Ok(("", length.1))
    else
      var text :- Text(data, length.1, bytes, charset);
      assert bytes > 0;
      var end :- Skip(data, length.1, bytes);
      Ok((text, end))
  }

  /** The five names of the 4.1 layout: database, table, origin table,
      column, origin column. */
  type Names = (string, string, string, string, string)

  function Names41At(data: seq<byte>, at: nat, charset: Charset): Outcome<(Names, nat)> {
    var names :- ReadSizedStrings(data, at, charset, 5);
    var n := names.0;
    Ok(((n[0], n[1], n[2], n[3], n[4]), names.1))
  }

  /** A cursor read of one string: its value and the index after it. */
  type StringRead = nat -> Outcome<(string, nat)>

  /** `count` strings read one after another by `read`, each from where the
      previous one ended. */
  function ReadMany(read: StringRead, at: nat, count: nat): (r: Outcome<(seq<string>, nat)>)
    ensures r.Ok? ==> |r.value.0| == count
    decreases count
  {
    if count == 0 then Ok(([], at))
    else
      var first :- read(at);
      var others :- ReadMany(read, first.1, count - 1);
      Ok(([first.0] + others.0, others.1))
  }

  /** `count` length-prefixed strings read one after another, as `decode41`
      reads its five names and `decode320` its two. */
  function ReadSizedStrings(data: seq<byte>, at: nat, charset: Charset, count: nat): (r: Outcome<(seq<string>, nat)>)
    ensures r.Ok? ==> |r.value.0| == count
  {
    ReadMany(p => ReadSizedString(data, p, charset), at, count)
  }

  /** The fixed part after the names: collation id, size, type id, column
      flags and decimals. */
  type Fixed = (int, int, int, int, int)

  function Fixed41At(data: seq<byte>, at: nat): (r: Outcome<(Fixed, nat)>)
    ensures r.Ok? ==>
      0 <= r.value.0.0 < 0x1_0000 && 0 <= r.value.0.1 < 0x1_0000_0000 &&
      0 <= r.value.0.2 < 0x100 && 0 <= r.value.0.4 < 0x100
  {
    Pow256Values();
    Pow256Four();
    var fixedLength :- ReadVarInt(data, at);
    var collationId :- ReadUnsigned(data, fixedLength.1, 2);
    var size :- ReadUnsigned(data, collationId.1, 4);
    var typeId :- ReadUnsigned(data, size.1, 1);
    var definition :- ReadSigned16(data, typeId.1);
    var decimals :- ReadUnsigned(data, definition.1, 1);
    Ok(((collationId.0, size.0, typeId.0, definition.0, decimals.0), decimals.1))
  }

  /** `decode41`: skips the catalog ("def"), then names and fixed part. */
  function Decode41At(data: seq<byte>, at: nat, context: ConnectionContext): (r: Outcome<(DefinitionMetadataMessage, nat)>)
    ensures r.Ok? ==>
      r.value.0.database.Some? && r.value.0.originTable.Some? && r.value.0.originColumn.Some? &&
      0 < r.value.0.collationId < 0x1_0000 && 0 <= r.value.0.size < 0x1_0000_0000 &&
      0 <= r.value.0.typeId < 0x100 && 0 <= r.value.0.decimals < 0x100
  {
    var start :- Skip(data, at, 4);
    var names :- Names41At(data, start, context.charset);
    var fixed :- Fixed41At(data, names.1);
    var message :- NewMessage(Some(names.0.0), Some(names.0.1), Some(names.0.2), Some(names.0.3), Some(names.0.4),
                              fixed.0.0, fixed.0.1, fixed.0.2, Some(ColumnDefinition(fixed.0.3)), fixed.0.4);
    Ok((message, fixed.1))
  }

  /** The part of the 3.20 layout after the names: size, type and flags,
      each behind a constant length byte, then the decimals. */
  function Fixed320At(data: seq<byte>, at: nat): (r: Outcome<(Fixed, nat)>)
    ensures r.Ok? ==> 0 <= r.value.0.1 < 0x100_0000
  {
    Pow256Values();
    var sizeAt :- Skip(data, at, 1);
    var size :- ReadUnsigned(data, sizeAt, 3);
    var typeAt :- Skip(data, size.1, 1);
    var typeId :- ReadUnsigned(data, typeAt, 1);
    var flagsAt :- Skip(data, typeId.1, 1);
    var definition :- ReadSigned16(data, flagsAt);
    var decimals :- ReadUnsigned(data, definition.1, 1);
    Ok(((0, size.0, typeId.0, definition.0, decimals.0), decimals.1))
  }

  /** `decode320`: table and column, then the fixed part; no database or
      origins, and the collation of the connection. */
  function Decode320At(data: seq<byte>, at: nat, context: ConnectionContext): (r: Outcome<(DefinitionMetadataMessage, nat)>)
    ensures r.Ok? ==>
      r.value.0.database.None? && r.value.0.originTable.None? && r.value.0.originColumn.None? &&
      r.value.0.collationId == context.clientCollationId && 0 <= r.value.0.size < 0x100_0000
    ensures context.clientCollationId <= 0 ==> r.Err?
  {
    var names :- ReadSizedStrings(data, at, context.charset, 2);
    var fixed :- Fixed320At(data, names.1);
    var message :- NewMessage(None, Some(names.0[0]), None, Some(names.0[1]), None, context.clientCollationId,
                              fixed.0.1, fixed.0.2, Some(ColumnDefinition(fixed.0.3)), fixed.0.4);
    Ok((message, fixed.1))
  }

  /** `decode`: the 4.1 layout exactly when the connection uses protocol
      4.1. */
  function DecodeAt(data: seq<byte>, at: nat, context: ConnectionContext): (r: Outcome<(DefinitionMetadataMessage, nat)>)
    ensures context.protocol41 ==> r == Decode41At(data, at, context)
    ensures !context.protocol41 ==> r == Decode320At(data, at, context)
  {
    if context.protocol41 then Decode41At(data, at, context) else Decode320At(data, at, context)
  }

  lemma Pow256Four()
    ensures Pow256(4) == 0x1_0000_0000
  {
  }

  // ------------------------------------------------------------ properties

  /** A zero length is the empty string, with only the length read. */
  lemma ZeroLengthIsEmpty(data: seq<byte>, at: nat, charset: Charset)
    requires ReadVarInt(data, at).Ok? && ReadVarInt(data, at).value.0 == 0
    ensures ReadSizedString(data, at, charset) == Ok(("", ReadVarInt(data, at).value.1))
  {
  }

  /** A length is narrowed to `int` before use: one whose low 32 bits are
      zero reads as "" too, and one that narrows to a negative number
      fails. */
  lemma NarrowedLength(data: seq<byte>, at: nat, charset: Charset)
    requires ReadVarInt(data, at).Ok?
    ensures WrapInt(ReadVarInt(data, at).value.0) == 0 ==>
      ReadSizedString(data, at, charset) == Ok(("", ReadVarInt(data, at).value.1))
    ensures WrapInt(ReadVarInt(data, at).value.0) < 0 ==> ReadSizedString(data, at, charset) == Err(IndexOutOfBounds)
  {
  }

  // ------------------------------------------------------------ encoding

  /** A length-prefixed ASCII string. */
  function Sized(s: string): (r: seq<byte>)
    requires IsAscii(s) && |s| <= INT_MAX
    ensures |r| == Width(s)
  {
    VarIntBytes(|s|) + AsciiBytes(s)
  }

  /** The unsigned 16-bit pattern of a signed 16-bit value. */
  function Unsigned16(v: int): (r: nat)
    requires -0x8000 <= v < 0x8000
    ensures r < 0x1_0000
  {
    if v < 0 then v + 0x1_0000 else v
  }

  predicate EncodableName(s: string) {
    IsAscii(s) && |s| <= INT_MAX
  }

  /** What the 4.1 layout can carry back. */
  predicate Encodable41(m: DefinitionMetadataMessage) {
    m.database.Some? && m.originTable.Some? && m.originColumn.Some? &&
    EncodableName(m.database.value) && EncodableName(m.table) && EncodableName(m.originTable.value) &&
    EncodableName(m.column) && EncodableName(m.originColumn.value) &&
    0 < m.collationId < 0x1_0000 && 0 <= m.size < 0x1_0000_0000 && 0 <= m.typeId < 0x100 &&
    -0x8000 <= m.definition.bitmap < 0x8000 && 0 <= m.decimals < 0x100
  }

  const CATALOG: seq<byte> := [3, 0x64, 0x65, 0x66]
  const FIXED_LENGTH: byte := 0x0C

  function FixedBytes(m: DefinitionMetadataMessage): (r: seq<byte>)
    requires Encodable41(m)
    ensures |r| == 11
  {
    [FIXED_LENGTH] + (LittleEndianBytes(m.collationId, 2) + (LittleEndianBytes(m.size, 4) +
    (LittleEndianBytes(m.typeId, 1) + (LittleEndianBytes(Unsigned16(m.definition.bitmap), 2) +
    LittleEndianBytes(m.decimals, 1)))))
  }

  /** The five names of `m` in the order the 4.1 layout carries them. */
  function NameList(m: DefinitionMetadataMessage): (r: seq<string>)
    requires Encodable41(m)
    ensures |r| == 5 && forall i | 0 <= i < 5 :: EncodableName(r[i])
  {
    [m.database.value, m.table, m.originTable.value, m.column, m.originColumn.value]
  }

  /** How many bytes a length-prefixed string takes. */
  function Width(s: string): nat {
    VarIntWidth(|s|) + |s|
  }

  function WidthAll(ss: seq<string>): nat {
    if ss == [] then 0 else Width(ss[0]) + WidthAll(ss[1..])
  }

  /** Length-prefixed strings, one after another. */
  function SizedAll(ss: seq<string>): (r: seq<byte>)
    requires forall i | 0 <= i < |ss| :: EncodableName(ss[i])
    ensures |r| == WidthAll(ss)
  {
    if ss == [] then []
    else
      assert EncodableName(ss[0]);
      Sized(ss[0]) + SizedAll(ss[1..])
  }

  /** The 4.1 column definition packet for `m`; the two filler bytes at the
      end are not read by the decoder. */
  function Encode41(m: DefinitionMetadataMessage): (r: seq<byte>)
    requires Encodable41(m)
  {
    CATALOG + (SizedAll(NameList(m)) + (FixedBytes(m) + [0, 0]))
  }

  lemma AtSplit(data: seq<byte>, at: nat, a: seq<byte>, b: seq<byte>)
    requires At(data, at, a + b)
    ensures At(data, at, a) && At(data, at + |a|, b)
  {
    assert data[at..at + |a|] == (a + b)[..|a|];
    assert data[at + |a|..at + |a| + |b|] == (a + b)[|a|..];
  }

  /** `AtSplit` for a segment whose first part is itself a concatenation. */
  lemma AtSplitLeft(data: seq<byte>, at: nat, a: seq<byte>, b: seq<byte>, c: seq<byte>)
    requires At(data, at, (a + b) + c)
    ensures At(data, at, a) && At(data, at + |a|, b + c)
  {
    assert (a + b) + c == a + (b + c);
    AtSplit(data, at, a, b + c);
  }

  /** A length-prefixed ASCII string reads back. */
  lemma ReadSizedWritten(data: seq<byte>, at: nat, s: string)
    requires EncodableName(s) && At(data, at, Sized(s))
    ensures ReadSizedString(data, at, US_ASCII) == Ok((s, at + Width(s)))
  {
    var length := VarIntBytes(|s|);
    AtSplit(data, at, length, AsciiBytes(s));
    ReadVarIntWritten(data, at, |s|);
    ReadTextAfter(data, at, s, at + |length|);
  }

  /** The text after a length prefix that reads as `|s|`. */
  lemma ReadTextAfter(data: seq<byte>, at: nat, s: string, start: nat)
    requires EncodableName(s) && ReadVarInt(data, at) == Ok((|s|, start)) && At(data, start, AsciiBytes(s))
    ensures ReadSizedString(data, at, US_ASCII) == Ok((s, start + |s|))
  {
    if |s| > 0 {
      assert Text(data, start, |s|, US_ASCII) == Ok(Ascii(AsciiBytes(s)));
    }
  }

  lemma SignedUnsigned16(v: int)
    requires -0x8000 <= v < 0x8000
    ensures Signed(Unsigned16(v), SHORT_MODULUS) == v
  {
  }

  /** A segment read where it was written, with what follows it. */
  lemma ReadThen(data: seq<byte>, at: nat, v: nat, n: nat, rest: seq<byte>)
    requires v < Pow256(n) && At(data, at, LittleEndianBytes(v, n) + rest)
    ensures ReadUnsigned(data, at, n) == Ok((v, at + n)) && At(data, at + n, rest)
  {
    AtSplit(data, at, LittleEndianBytes(v, n), rest);
    ReadWritten(data, at, v, n);
  }

  lemma ReadFixedWritten(data: seq<byte>, at: nat, m: DefinitionMetadataMessage)
    requires Encodable41(m) && At(data, at, FixedBytes(m))
    ensures Fixed41At(data, at) ==
      Ok(((m.collationId, m.size, m.typeId, m.definition.bitmap, m.decimals), at + 11))
  {
    Pow256Values();
    Pow256Four();
    var bits := Unsigned16(m.definition.bitmap);
    var s1 := LittleEndianBytes(m.collationId, 2);
    var s2 := LittleEndianBytes(m.size, 4);
    var s3 := LittleEndianBytes(m.typeId, 1);
    var s4 := LittleEndianBytes(bits, 2);
    var s5 := LittleEndianBytes(m.decimals, 1);
    AtSplit(data, at, [FIXED_LENGTH], s1 + (s2 + (s3 + (s4 + s5))));
    assert VarIntBytes(0x0C) == [FIXED_LENGTH];
    ReadVarIntWritten(data, at, 0x0C);
    ReadThen(data, at + 1, m.collationId, 2, s2 + (s3 + (s4 + s5)));
    ReadThen(data, at + 3, m.size, 4, s3 + (s4 + s5));
    ReadThen(data, at + 7, m.typeId, 1, s4 + s5);
    ReadThen(data, at + 8, bits, 2, s5);
    SignedUnsigned16(m.definition.bitmap);
    assert s5 == s5 + [];
    ReadThen(data, at + 10, m.decimals, 1, []);
  }

  /** Each string's length-prefixed bytes laid out one after another from
      `at`. */
  predicate LaidOut(data: seq<byte>, at: nat, ss: seq<string>)
    decreases |ss|
  {
    ss == [] || (EncodableName(ss[0]) && At(data, at, Sized(ss[0])) && LaidOut(data, at + Width(ss[0]), ss[1..]))
  }

  lemma {:induction false} SizedAllLaidOut(data: seq<byte>, at: nat, ss: seq<string>, rest: seq<byte>)
    requires forall i | 0 <= i < |ss| :: EncodableName(ss[i])
    requires At(data, at, SizedAll(ss) + rest)
    ensures LaidOut(data, at, ss) && At(data, at + WidthAll(ss), rest)
    decreases |ss|
  {
    if ss != [] {
      var head, tail := Sized(ss[0]), SizedAll(ss[1..]);
      assert SizedAll(ss) == head + tail;
      AtSplitLeft(data, at, head, tail, rest);
      SizedAllLaidOut(data, at + |head|, ss[1..], rest);
    } else {
      assert SizedAll(ss) + rest == rest;
    }
  }

  /** Each string read back by `read`, one after another from `at`. */
  predicate ReadsBack(read: StringRead, at: nat, ss: seq<string>)
    decreases |ss|
  {
    ss == [] || (read(at) == Ok((ss[0], at + Width(ss[0]))) && ReadsBack(read, at + Width(ss[0]), ss[1..]))
  }

  lemma {:induction false} LaidOutReadsBack(data: seq<byte>, at: nat, ss: seq<string>)
    requires LaidOut(data, at, ss)
    ensures ReadsBack(p => ReadSizedString(data, p, US_ASCII), at, ss)
    decreases |ss|
  {
    if ss != [] {
      ReadSizedWritten(data, at, ss[0]);
      LaidOutReadsBack(data, at + Width(ss[0]), ss[1..]);
    }
  }

  lemma {:induction false} ReadsBackMany(read: StringRead, at: nat, ss: seq<string>)
    requires ReadsBack(read, at, ss)
    ensures ReadMany(read, at, |ss|) == Ok((ss, at + WidthAll(ss)))
    decreases |ss|
  {
    if ss != [] {
      ReadsBackMany(read, at + Width(ss[0]), ss[1..]);
      assert [ss[0]] + ss[1..] == ss;
    }
  }

  lemma ReadStringsWritten(data: seq<byte>, at: nat, ss: seq<string>, rest: seq<byte>)
    requires forall i | 0 <= i < |ss| :: EncodableName(ss[i])
    requires At(data, at, SizedAll(ss) + rest)
    ensures ReadSizedStrings(data, at, US_ASCII, |ss|) == Ok((ss, at + WidthAll(ss)))
    ensures At(data, at + WidthAll(ss), rest)
  {
    SizedAllLaidOut(data, at, ss, rest);
    LaidOutReadsBack(data, at, ss);
    ReadsBackMany(p => ReadSizedString(data, p, US_ASCII), at, ss);
  }

  /** One read off the front of a run of reads. */
  lemma StringsUnroll(data: seq<byte>, at: nat, charset: Charset, count: nat)
    requires count > 0
    ensures var first := ReadSizedString(data, at, charset);
      ReadSizedStrings(data, at, charset, count) ==
        if first.Err? then Err(first.error)
        else
          var others := ReadSizedStrings(data, first.value.1, charset, count - 1);
          if others.Err? then Err(others.error) else Ok(([first.value.0] + others.value.0, others.value.1))
  {
  }

  /** Five names read where they were written. */
  lemma ReadNamesWritten(data: seq<byte>, at: nat, ss: seq<string>, rest: seq<byte>)
    requires |ss| == 5 && forall i | 0 <= i < 5 :: EncodableName(ss[i])
    requires At(data, at, SizedAll(ss) + rest)
    ensures Names41At(data, at, US_ASCII) == Ok(((ss[0], ss[1], ss[2], ss[3], ss[4]), at + WidthAll(ss)))
    ensures At(data, at + WidthAll(ss), rest)
  {
    ReadStringsWritten(data, at, ss, rest);
  }

  /** The catalog skipped, the names and the fixed part read: that is the
      message they describe. */
  lemma Decode41Reads(data: seq<byte>, context: ConnectionContext, m: DefinitionMetadataMessage, fixedAt: nat, end: nat)
    requires Encodable41(m) && |data| >= 4
    requires Names41At(data, 4, context.charset) ==
      Ok(((m.database.value, m.table, m.originTable.value, m.column, m.originColumn.value), fixedAt))
    requires Fixed41At(data, fixedAt) == Ok(((m.collationId, m.size, m.typeId, m.definition.bitmap, m.decimals), end))
    ensures Decode41At(data, 0, context) == Ok((m, end))
  {
  }

  /** The 4.1 layout read where it was written. */
  lemma Decode41Written(data: seq<byte>, m: DefinitionMetadataMessage, context: ConnectionContext)
    requires Encodable41(m) && context.charset == US_ASCII
    requires data == CATALOG + (SizedAll(NameList(m)) + (FixedBytes(m) + [0, 0]))
    ensures Decode41At(data, 0, context) == Ok((m, |data| - 2))
  {
    var names := NameList(m);
    var rest := FixedBytes(m) + [0, 0];
    AtWhole(data);
    AtSplit(data, 0, CATALOG, SizedAll(names) + rest);
    ReadNamesWritten(data, 4, names, rest);
    var fixedAt := 4 + WidthAll(names);
    AtSplit(data, fixedAt, FixedBytes(m), [0, 0]);
    ReadFixedWritten(data, fixedAt, m);
    Decode41Reads(data, context, m, fixedAt, fixedAt + 11);
  }

  /** Decoding the 4.1 packet of `m` gives `m` back, with only the two filler
      bytes left unread. */
  lemma Decode41Encode41(m: DefinitionMetadataMessage, context: ConnectionContext)
    requires Encodable41(m) && context.protocol41 && context.charset == US_ASCII
    ensures DecodeAt(Encode41(m), 0, context) == Ok((m, |Encode41(m)| - 2))
  {
    Decode41Written(Encode41(m), m, context);
  }

  /** What the 3.20 layout can carry back: no database or origins, and the
      collation of the connection. */
  predicate Encodable320(m: DefinitionMetadataMessage, context: ConnectionContext) {
    m.database.None? && m.originTable.None? && m.originColumn.None? &&
    EncodableName(m.table) && EncodableName(m.column) &&
    m.collationId == context.clientCollationId && m.collationId > 0 &&
    0 <= m.size < 0x100_0000 && 0 <= m.typeId < 0x100 &&
    -0x8000 <= m.definition.bitmap < 0x8000 && 0 <= m.decimals < 0x100
  }

  /** The fixed part of the 3.20 layout, with the constant length bytes the
      server puts before size, type and flags. */
  function Fixed320Bytes(m: DefinitionMetadataMessage, context: ConnectionContext): (r: seq<byte>)
    requires Encodable320(m, context)
    ensures |r| == 10
  {
    [3] + (LittleEndianBytes(m.size, 3) + ([1] + (LittleEndianBytes(m.typeId, 1) +
    ([3] + (LittleEndianBytes(Unsigned16(m.definition.bitmap), 2) + LittleEndianBytes(m.decimals, 1))))))
  }

  /** The 3.20 column definition packet for `m`. */
  function Encode320(m: DefinitionMetadataMessage, context: ConnectionContext): (r: seq<byte>)
    requires Encodable320(m, context)
  {
    SizedAll([m.table, m.column]) + Fixed320Bytes(m, context)
  }

  /** A byte the decoder skips, with what follows it. */
  lemma SkipThen(data: seq<byte>, at: nat, b: byte, rest: seq<byte>)
    requires At(data, at, [b] + rest)
    ensures Skip(data, at, 1) == Ok(at + 1) && At(data, at + 1, rest)
  {
    AtSplit(data, at, [b], rest);
  }

  lemma ReadFixed320Written(data: seq<byte>, at: nat, m: DefinitionMetadataMessage, context: ConnectionContext)
    requires Encodable320(m, context) && At(data, at, Fixed320Bytes(m, context))
    ensures Fixed320At(data, at) == Ok(((0, m.size, m.typeId, m.definition.bitmap, m.decimals), at + 10))
  {
    Pow256Values();
    var bits := Unsigned16(m.definition.bitmap);
    var s1 := LittleEndianBytes(m.size, 3);
    var s2 := LittleEndianBytes(m.typeId, 1);
    var s3 := LittleEndianBytes(bits, 2);
    var s4 := LittleEndianBytes(m.decimals, 1);
    SkipThen(data, at, 3, s1 + ([1] + (s2 + ([3] + (s3 + s4)))));
    ReadThen(data, at + 1, m.size, 3, [1] + (s2 + ([3] + (s3 + s4))));
    SkipThen(data, at + 4, 1, s2 + ([3] + (s3 + s4)));
    ReadThen(data, at + 5, m.typeId, 1, [3] + (s3 + s4));
    SkipThen(data, at + 6, 3, s3 + s4);
    ReadThen(data, at + 7, bits, 2, s4);
    SignedUnsigned16(m.definition.bitmap);
    assert s4 == s4 + [];
    ReadThen(data, at + 9, m.decimals, 1, []);
  }

  /** Table, column and the fixed part read: that is the message they
      describe. */
  lemma Decode320Reads(data: seq<byte>, context: ConnectionContext, m: DefinitionMetadataMessage, names: seq<string>,
                       fixedAt: nat, end: nat)
    requires Encodable320(m, context) && names == [m.table, m.column]
    requires ReadSizedStrings(data, 0, context.charset, |names|) == Ok((names, fixedAt))
    requires Fixed320At(data, fixedAt) == Ok(((0, m.size, m.typeId, m.definition.bitmap, m.decimals), end))
    ensures Decode320At(data, 0, context) == Ok((m, end))
  {
  }

  /** Names written from `at` with nothing after them read back. */
  lemma NamesWritten(data: seq<byte>, at: nat, ss: seq<string>)
    requires forall i | 0 <= i < |ss| :: EncodableName(ss[i])
    requires At(data, at, SizedAll(ss))
    ensures ReadSizedStrings(data, at, US_ASCII, |ss|) == Ok((ss, at + WidthAll(ss)))
  {
    assert SizedAll(ss) + [] == SizedAll(ss);
    ReadStringsWritten(data, at, ss, []);
  }

  /** Decoding the 3.20 packet of `m` gives `m` back, with all of it read. */
  lemma Decode320Encode320(m: DefinitionMetadataMessage, context: ConnectionContext)
    requires Encodable320(m, context) && !context.protocol41 && context.charset == US_ASCII
    ensures DecodeAt(Encode320(m, context), 0, context) == Ok((m, |Encode320(m, context)|))
  {
    var names := [m.table, m.column];
    var data := Encode320(m, context);
    AtWhole(data);
    AtSplit(data, 0, SizedAll(names), Fixed320Bytes(m, context));
    Decode320Whole(data, m, context, names);
  }

  /** The 3.20 layout read back from the bytes it was written to. */
  lemma Decode320Whole(data: seq<byte>, m: DefinitionMetadataMessage, context: ConnectionContext, names: seq<string>)
    requires Encodable320(m, context) && context.charset == US_ASCII && names == [m.table, m.column]
    requires At(data, 0, SizedAll(names)) && At(data, WidthAll(names), Fixed320Bytes(m, context))
    requires |data| == WidthAll(names) + 10
    ensures Decode320At(data, 0, context) == Ok((m, |data|))
  {
    var fixedAt := WidthAll(names);
    NamesWritten(data, 0, names);
    ReadFixed320Written(data, fixedAt, m, context);
    Decode320Reads(data, context, m, names, fixedAt, fixedAt + 10);
  }

  /** `equals`: every field, the flags by their value. */
  function Equals(a: DefinitionMetadataMessage, b: DefinitionMetadataMessage): (r: bool)
    ensures r <==> a == b
  {
    a.collationId == b.collationId && a.size == b.size && a.typeId == b.typeId &&
    a.definition.bitmap == b.definition.bitmap && a.decimals == b.decimals &&
    a.database == b.database && a.table == b.table && a.originTable == b.originTable &&
    a.column == b.column && a.originColumn == b.originColumn
  }

  // ------------------------------------------------------------ the decoders on a buffer

  /** `readVarIntSizedString` on `buf`. */
  method ReadVarIntSizedString(buf: ByteBuf, charset: Charset) returns (r: Outcome<string>)
    modifies buf
    ensures r == Taken(ReadSizedString(buf.data, old(buf.readerIndex), charset))
    ensures r.Ok? ==> buf.readerIndex == ReadSizedString(buf.data, old(buf.readerIndex), charset).value.1
  {
    var length :- buf.ReadVarIntValue();
    var bytes := WrapInt(length);
    if bytes == 0 {
      return Ok("");
    }
    var result :- buf.ToStringAt(buf.readerIndex, bytes, charset);
    // the bytes were just read, so this skip cannot fail
    var skipped := buf.SkipBytes(bytes);
    return Ok(result);
  }

  /** `count` calls of `readVarIntSizedString` on `buf`, one after another. */
  method ReadVarIntSizedStrings(buf: ByteBuf, charset: Charset, count: nat) returns (r: Outcome<seq<string>>)
    modifies buf
    ensures r == Taken(ReadSizedStrings(buf.data, old(buf.readerIndex), charset, count))
    ensures r.Ok? ==> buf.readerIndex == ReadSizedStrings(buf.data, old(buf.readerIndex), charset, count).value.1
    decreases count
  {
    if count == 0 {
      return Ok([]);
    }
    StringsUnroll(buf.data, buf.readerIndex, charset, count);
    var first :- ReadVarIntSizedString(buf, charset);
    var others :- ReadVarIntSizedStrings(buf, charset, count - 1);
    return Ok([first] + others);
  }

  /** The five names of `decode41` on `buf`. */
  method ReadNames41(buf: ByteBuf, charset: Charset) returns (r: Outcome<Names>)
    modifies buf
    ensures r == Taken(Names41At(buf.data, old(buf.readerIndex), charset))
    ensures r.Ok? ==> buf.readerIndex == Names41At(buf.data, old(buf.readerIndex), charset).value.1
  {
    var names :- ReadVarIntSizedStrings(buf, charset, 5);
    return Ok((names[0], names[1], names[2], names[3], names[4]));
  }

  method ReadFixed41(buf: ByteBuf) returns (r: Outcome<Fixed>)
    modifies buf
    ensures r == Taken(Fixed41At(buf.data, old(buf.readerIndex)))
    ensures r.Ok? ==> buf.readerIndex == Fixed41At(buf.data, old(buf.readerIndex)).value.1
  {
    var fixedLength :- buf.ReadVarIntValue();
    var collationId :- buf.ReadUnsignedLE(2);
    var size :- buf.ReadUnsignedLE(4);
    var typeId :- buf.ReadUnsignedLE(1);
    var definition :- buf.ReadShortLE();
    var decimals :- buf.ReadUnsignedLE(1);
    return Ok((collationId, size, typeId, definition, decimals));
  }

  /** `decode41` on `buf`. */
  method Decode41(buf: ByteBuf, context: ConnectionContext) returns (r: Outcome<DefinitionMetadataMessage>)
    modifies buf
    ensures r == Taken(Decode41At(buf.data, old(buf.readerIndex), context))
    ensures r.Ok? ==> buf.readerIndex == Decode41At(buf.data, old(buf.readerIndex), context).value.1
  {
    var skipped :- buf.SkipBytes(4);
    var names :- ReadNames41(buf, context.charset);
    var fixed :- ReadFixed41(buf);
    r := NewMessage(Some(names.0), Some(names.1), Some(names.2), Some(names.3), Some(names.4),
                    fixed.0, fixed.1, fixed.2, Some(ColumnDefinition(fixed.3)), fixed.4);
  }

  method ReadFixed320(buf: ByteBuf) returns (r: Outcome<Fixed>)
    modifies buf
    ensures r == Taken(Fixed320At(buf.data, old(buf.readerIndex)))
    ensures r.Ok? ==> buf.readerIndex == Fixed320At(buf.data, old(buf.readerIndex)).value.1
  {
    var sizeMarker :- buf.SkipBytes(1);
    var size :- buf.ReadUnsignedLE(3);
    var typeMarker :- buf.SkipBytes(1);
    var typeId :- buf.ReadUnsignedLE(1);
    var flagsMarker :- buf.SkipBytes(1);
    var definition :- buf.ReadShortLE();
    var decimals :- buf.ReadUnsignedLE(1);
    return Ok((0, size, typeId, definition, decimals));
  }

  /** `decode320` on `buf`. */
  method Decode320(buf: ByteBuf, context: ConnectionContext) returns (r: Outcome<DefinitionMetadataMessage>)
    modifies buf
    ensures r == Taken(Decode320At(buf.data, old(buf.readerIndex), context))
    ensures r.Ok? ==> buf.readerIndex == Decode320At(buf.data, old(buf.readerIndex), context).value.1
  {
    var names :- ReadVarIntSizedStrings(buf, context.charset, 2);
    var fixed :- ReadFixed320(buf);
    r := NewMessage(None, Some(names[0]), None, Some(names[1]), None, context.clientCollationId,
                    fixed.1, fixed.2, Some(ColumnDefinition(fixed.3)), fixed.4);
  }

  /** `decode` on `buf`. */
  method Decode(buf: ByteBuf, context: ConnectionContext) returns (r: Outcome<DefinitionMetadataMessage>)
    modifies buf
    ensures r == Taken(DecodeAt(buf.data, old(buf.readerIndex), context))
    ensures r.Ok? ==> buf.readerIndex == DecodeAt(buf.data, old(buf.readerIndex), context).value.1
  {
    if context.protocol41 {
      r := Decode41(buf, context);
    } else {
      r := Decode320(buf, context);
    }
  }
}

/** The MySQL ERR packet (`ErrorMessage`): its decoding from a buffer and
    its translation into an R2DBC exception, first by the server's error
    code, then by the class of its SQLSTATE. The classes used are those of
    ISO/IEC 9075-2, subclause 24.1: "23" integrity constraint violation,
    "40" transaction rollback, "42" syntax error or access rule violation. */
module MySqlErrors {
  import opened Wrappers
  import opened JavaValues
  import opened ByteBufs

  const CONSTRAINT_VIOLATION_PREFIX := "23"
  const TRANSACTION_ROLLBACK_PREFIX := "40"
  const SYNTAX_ERROR_PREFIX := "42"
  const SQL_STATE_SIZE := 5
  /** The 0xFF header byte of an ERR packet. */
  const ERROR_HEADER: byte := 0xFF
  /** '#', which announces a SQLSTATE under protocol 4.1. */
  const SQL_STATE_MARKER: byte := 0x23

  /** An error reported by the server; `offendingSql` is set only by the
      statement that ran into it. */
  datatype ErrorMessage = ErrorMessage(code: int, sqlState: Option<string>, message: string, offendingSql: Option<string>)

  /** The R2DBC exception classes the message is translated into. */
  datatype ExceptionKind =
    | PermissionDenied
    | TransientResource
    | Timeout
    | Rollback
    | BadGrammar
    | DataIntegrityViolation
    | NonTransientResource

  /** An exception: its class, reason, SQLSTATE, error code and, for bad
      grammar only, the offending statement. */
  datatype R2dbcException = R2dbcException(
    kind: ExceptionKind, reason: string, sqlState: Option<string>, code: int, offendingSql: Option<string>)

  // ------------------------------------------------------------ the code table

  const PERMISSION_DENIED_CODES: set<int> := {1044, 1045, 1095, 1142, 1143, 1227, 1370, 1698, 1873}
  const TRANSIENT_CODES: set<int> := {1159, 1161, 1213, 1317}
  const TIMEOUT_CODES: set<int> := {1205, 1907}
  const ROLLBACK_CODES: set<int> := {1613}
  const BAD_GRAMMAR_CODES: set<int> := {1050, 1051, 1054, 1064, 1247, 1146, 1304, 1305, 1630}
  const INTEGRITY_CODES: set<int> := {1022, 1048, 1062, 1169, 1215, 1216, 1217, 1364, 1451, 1452, 1557, 1859}

  /** The switch on the error code: the class of a listed code. */
  function CodeKind(code: int): Option<ExceptionKind> {
    if code in PERMISSION_DENIED_CODES then Some(PermissionDenied)
    else if code in TRANSIENT_CODES then Some(TransientResource)
    else if code in TIMEOUT_CODES then Some(Timeout)
    else if code in ROLLBACK_CODES then Some(Rollback)
    else if code in BAD_GRAMMAR_CODES then Some(BadGrammar)
    else if code in INTEGRITY_CODES then Some(DataIntegrityViolation)
    else None
  }

  /** The codes the switch sends to `kind`. */
  function CodesOf(kind: ExceptionKind): set<int> {
    match kind
    case PermissionDenied => PERMISSION_DENIED_CODES
    case TransientResource => TRANSIENT_CODES
    case Timeout => TIMEOUT_CODES
    case Rollback => ROLLBACK_CODES
    case BadGrammar => BAD_GRAMMAR_CODES
    case DataIntegrityViolation => INTEGRITY_CODES
    case NonTransientResource => {}
  }

  /** The cases of the switch are disjoint, so each listed code reaches the
      class of its own case whatever order the cases are tested in. */
  lemma CodeKindIsTable(code: int, kind: ExceptionKind)
    ensures CodeKind(code) == Some(kind) <==> code in CodesOf(kind)
  {
  }

  /** `toException(sql)`. */
  function ToException(m: ErrorMessage, sql: Option<string>): R2dbcException {
    match CodeKind(m.code)
    case Some(kind) =>
      R2dbcException(kind, m.message, m.sqlState, m.code, if kind == BadGrammar then sql else None)
    case None =>
      if m.sqlState.None? then
        R2dbcException(NonTransientResource, m.message, None, m.code, None)
      else if SYNTAX_ERROR_PREFIX <= m.sqlState.value then
        R2dbcException(BadGrammar, m.message, m.sqlState, m.code, sql)
      else if CONSTRAINT_VIOLATION_PREFIX <= m.sqlState.value then
        R2dbcException(DataIntegrityViolation, m.message, m.sqlState, m.code, None)
      else if TRANSACTION_ROLLBACK_PREFIX <= m.sqlState.value then
        R2dbcException(Rollback, m.message, m.sqlState, m.code, None)
      else
        R2dbcException(NonTransientResource, m.message, None, m.code, None)
  }

  /** `toException()`: with the message's own offending statement. */
  function ToOwnException(m: ErrorMessage): (e: R2dbcException)
    ensures e == ToException(m, m.offendingSql)
  {
    ToException(m, m.offendingSql)
  }

  /** A listed code decides the class whatever the SQLSTATE says. */
  lemma CodeTableComesFirst(m: ErrorMessage, sql: Option<string>, otherState: Option<string>)
    requires CodeKind(m.code).Some?
    ensures ToException(m, sql).kind == ToException(m.(sqlState := otherState), sql).kind
    ensures m.code in PERMISSION_DENIED_CODES ==> ToException(m, sql).kind == PermissionDenied
    ensures m.code in TRANSIENT_CODES ==> ToException(m, sql).kind == TransientResource
    ensures m.code in TIMEOUT_CODES ==> ToException(m, sql).kind == Timeout
    ensures m.code in ROLLBACK_CODES ==> ToException(m, sql).kind == Rollback
    ensures m.code in BAD_GRAMMAR_CODES ==> ToException(m, sql).kind == BadGrammar
    ensures m.code in INTEGRITY_CODES ==> ToException(m, sql).kind == DataIntegrityViolation
    ensures ToException(m, sql).sqlState == m.sqlState
  {
  }

  /** The SQLSTATE fallback for an unlisted code: "42" is bad grammar, "23"
      integrity, "40" rollback, and anything else (or no state) a
      non-transient resource failure that drops the state. */
  lemma StateClassFallback(m: ErrorMessage, sql: Option<string>)
    requires CodeKind(m.code).None?
    ensures m.sqlState.None? ==> ToException(m, sql).kind == NonTransientResource
    ensures m.sqlState.Some? && |m.sqlState.value| >= 2 && m.sqlState.value[..2] == "42" ==>
      ToException(m, sql).kind == BadGrammar
    ensures m.sqlState.Some? && |m.sqlState.value| >= 2 && m.sqlState.value[..2] == "23" ==>
      ToException(m, sql).kind == DataIntegrityViolation
    ensures m.sqlState.Some? && |m.sqlState.value| >= 2 && m.sqlState.value[..2] == "40" ==>
      ToException(m, sql).kind == Rollback
    ensures ToException(m, sql).kind == NonTransientResource <==>
      m.sqlState.None? || !(SYNTAX_ERROR_PREFIX <= m.sqlState.value || CONSTRAINT_VIOLATION_PREFIX <= m.sqlState.value ||
                            TRANSACTION_ROLLBACK_PREFIX <= m.sqlState.value)
    ensures ToException(m, sql).kind == NonTransientResource ==> ToException(m, sql).sqlState.None?
  {
    if m.sqlState.Some? && |m.sqlState.value| >= 2 {
      var s := m.sqlState.value;
      assert "42" <= s <==> s[..2] == "42";
      assert "23" <= s <==> s[..2] == "23";
      assert "40" <= s <==> s[..2] == "40";
    }
  }

  /** Every exception carries the message's text and code; only bad grammar
      carries the statement. */
  lemma ExceptionCarriesMessage(m: ErrorMessage, sql: Option<string>)
    ensures ToException(m, sql).reason == m.message && ToException(m, sql).code == m.code
    ensures ToException(m, sql).kind != BadGrammar ==> ToException(m, sql).offendingSql.None?
    ensures ToException(m, sql).kind == BadGrammar ==> ToException(m, sql).offendingSql == sql
  {
  }

  // ------------------------------------------------------------ offendedBy and equals

  /** `offendedBy`: the same message when `sql` is null, otherwise a copy
      that carries the statement. */
  function OffendedBy(m: ErrorMessage, sql: Option<string>): (r: ErrorMessage)
    ensures sql.None? ==> r == m
    ensures r.code == m.code && r.sqlState == m.sqlState && r.message == m.message
    ensures sql.Some? ==> r.offendingSql == sql
  {
    if sql.None? then m else m.(offendingSql := sql)
  }

  /** A bad-grammar exception of a message offended by `sql` names `sql`. */
  lemma OffendedMessageNamesStatement(m: ErrorMessage, sql: string)
    requires ToException(m, None).kind == BadGrammar
    ensures ToOwnException(OffendedBy(m, Some(sql))).offendingSql == Some(sql)
    ensures ToOwnException(OffendedBy(m, Some(sql))).kind == BadGrammar
  {
  }

  /** `equals`: code, SQLSTATE, message and statement, compared one by
      one. */
  function Equals(a: ErrorMessage, b: ErrorMessage): (r: bool)
    ensures r <==> a == b
  {
    a.code == b.code && a.sqlState == b.sqlState && a.message == b.message && a.offendingSql == b.offendingSql
  }

  // ------------------------------------------------------------ decoding

  /** The readable bytes from `at` on as US-ASCII text. */
  function RestText(data: seq<byte>, at: nat): string {
    if at <= |data| then Ascii(data[at..]) else ""
  }

  /** `decode` at index `at`: skip the header byte, read the unsigned 16-bit
      code, then, if the next byte is '#', the 5-character SQLSTATE; the
      rest of the buffer is the message. The result also gives the reader
      index after decoding, which stops before the message. */
  function DecodeAt(data: seq<byte>, at: nat): (r: Outcome<(ErrorMessage, nat)>)
    ensures r.Ok? ==> r.value.0.offendingSql.None? && 0 <= r.value.0.code < 0x1_0000
  {
    var afterHeader :- Skip(data, at, 1);
    var code :- ReadUnsigned(data, afterHeader, 2);
    Pow256Values();
    var marker :- GetByte(data, code.1);
    if marker == SQL_STATE_MARKER then
      var stateAt :- Skip(data, code.1, 1);
      var state :- Text(data, stateAt, SQL_STATE_SIZE, US_ASCII);
      var end :- Skip(data, stateAt, SQL_STATE_SIZE);
      Ok((ErrorMessage(code.0, Some(state), RestText(data, end), None), end))
    else
      Ok((ErrorMessage(code.0, None, RestText(data, code.1), None), code.1))
  }

  /** What the decoder accepts back: a 16-bit code, an ASCII message, an
      ASCII SQLSTATE of five characters, and, without a state, a message
      that does not start with '#' (and so is not empty). */
  predicate Encodable(m: ErrorMessage) {
    0 <= m.code < 0x1_0000 && m.offendingSql.None? && IsAscii(m.message) &&
    (m.sqlState.Some? ==> |m.sqlState.value| == SQL_STATE_SIZE && IsAscii(m.sqlState.value)) &&
    (m.sqlState.None? ==> |m.message| > 0 && m.message[0] != '#')
  }

  /** The ERR packet the server sends for `m`. */
  function Encode(m: ErrorMessage): (r: seq<byte>)
    requires Encodable(m)
  {
    [ERROR_HEADER] + LittleEndianBytes(m.code, 2) +
    (if m.sqlState.Some? then [SQL_STATE_MARKER] + AsciiBytes(m.sqlState.value) else []) +
    AsciiBytes(m.message)
  }

  /** Decoding an encoded message gives it back, with the reader index
      before the message. */
  lemma DecodeEncode(m: ErrorMessage)
    requires Encodable(m)
    ensures DecodeAt(Encode(m), 0) == Ok((m, if m.sqlState.Some? then 9 else 3))
  {
    var data := Encode(m);
    var codeBytes := LittleEndianBytes(m.code, 2);
    var message := AsciiBytes(m.message);
    Pow256Values();
    assert At(data, 1, codeBytes) by {
      assert data[1..3] == codeBytes;
    }
    ReadWritten(data, 1, m.code, 2);
    if m.sqlState.Some? {
      var state := AsciiBytes(m.sqlState.value);
      assert data == [ERROR_HEADER] + codeBytes + [SQL_STATE_MARKER] + state + message;
      assert data[3] == SQL_STATE_MARKER;
      assert data[4..9] == state;
      assert data[9..] == message;
    } else {
      assert data == [ERROR_HEADER] + codeBytes + message;
      assert data[3..] == message;
      assert data[3] == message[0];
      assert message[0] as char == m.message[0];
    }
  }

  /** Without a SQLSTATE, an empty message leaves no byte to test for '#',
      so the three-byte packet fails to decode. */
  lemma EmptyMessageWithoutState(code: nat)
    requires code < 0x1_0000
    ensures DecodeAt([ERROR_HEADER] + LittleEndianBytes(code, 2), 0) == Err(IndexOutOfBounds)
  {
  }

  /** `ErrorMessage.decode`, reading `buf` from its reader index. */
  method Decode(buf: ByteBuf) returns (r: Outcome<ErrorMessage>)
    modifies buf
    ensures r == Taken(DecodeAt(buf.data, old(buf.readerIndex)))
    ensures r.Ok? ==> buf.readerIndex == DecodeAt(buf.data, old(buf.readerIndex)).value.1
  {
    var skipped :- buf.SkipBytes(1);
    var code :- buf.ReadUnsignedLE(2);
    var marker :- buf.GetByteAt(buf.readerIndex);
    var sqlState: Option<string> := None;
    if marker == SQL_STATE_MARKER {
      // the marker byte was just read, so this skip cannot fail
      var markerSkipped := buf.SkipBytes(1);
      var state :- buf.ToStringAt(buf.readerIndex, SQL_STATE_SIZE, US_ASCII);
      var stateSkipped :- buf.SkipBytes(SQL_STATE_SIZE);
      sqlState := Some(state);
    }
    return Ok(ErrorMessage(code, sqlState, buf.Readable(US_ASCII), None));
  }
}

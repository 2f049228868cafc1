/** The part of a MySQL statement shared by its kinds: which generated key
    it asks the server for, and the fetch size check. */
module MySqlStatements {
  import opened Wrappers
  import opened JavaValues

  const LAST_INSERT_ID := "LAST_INSERT_ID"

  const COLUMNS_MESSAGE := "columns must not be null"
  const ID_NAME_MESSAGE := "id name must not be empty and not contain backticks"
  const SINGLE_MESSAGE := "MySQL only supports single generated value"
  const FETCH_SIZE_MESSAGE := "Fetch size must be greater or equal to zero"

  /** `requireValidName`: present, not empty and no backtick. */
  predicate ValidName(name: Option<string>) {
    name.Some? && |name.value| > 0 && '`' !in name.value
  }

  /** The key name `returnGeneratedValues` settles on for `columns` (a
      varargs array that may be null, of names that may be null). */
  function GeneratedKeyFor(columns: Option<seq<Option<string>>>): (r: Outcome<string>)
    ensures r.Ok? <==> columns.Some? && (|columns.value| == 0 || (|columns.value| == 1 && ValidName(columns.value[0])))
    ensures r.Ok? ==> ValidName(Some(r.value))
    ensures columns.Some? && |columns.value| == 0 ==> r == Ok(LAST_INSERT_ID)
    ensures columns.Some? && |columns.value| == 1 && r.Ok? ==> Some(r.value) == columns.value[0]
    ensures columns.Some? && |columns.value| > 1 ==> r == Err(IllegalArgument(SINGLE_MESSAGE))
  {
    if columns.None? then Err(IllegalArgument(COLUMNS_MESSAGE))
    else if |columns.value| == 0 then Ok(LAST_INSERT_ID)
    else if |columns.value| == 1 then
      if ValidName(columns.value[0]) then Ok(columns.value[0].value) else Err(IllegalArgument(ID_NAME_MESSAGE))
    else Err(IllegalArgument(SINGLE_MESSAGE))
  }

  /** `MySqlStatementSupport`. */
  class StatementSupport {
    var generatedKeyName: Option<string>

    /** Every key name the statement holds is one the server can be asked
        for. */
    predicate Valid()
      reads this
    {
      generatedKeyName.None? || ValidName(generatedKeyName)
    }

    constructor()
      ensures generatedKeyName.None? && Valid()
    {
      generatedKeyName := None;
    }

    /** `returnGeneratedValues`: on success the key name is set and the
        statement returned; on failure nothing changes. */
    method ReturnGeneratedValues(columns: Option<seq<Option<string>>>) returns (r: Outcome<StatementSupport>)
      requires Valid()
      modifies this
      ensures Valid()
      ensures var key := GeneratedKeyFor(columns);
        if key.Ok? then r == Ok(this) && generatedKeyName == Some(key.value)
        else r == Err(key.error) && generatedKeyName == old(generatedKeyName)
    {
      var key := GeneratedKeyFor(columns);
      if key.Err? {
        return Err(key.error);
      }
      generatedKeyName := Some(key.value);
      return Ok(this);
    }

    /** `fetchSize`: only checks its argument. */
    method FetchSize(rows: int) returns (r: Outcome<StatementSupport>)
      ensures r.Ok? <==> rows >= 0
      ensures r.Ok? ==> r.value == this
      ensures r.Err? ==> r.error == IllegalArgument(FETCH_SIZE_MESSAGE)
    {
      if rows < 0 {
        return Err(IllegalArgument(FETCH_SIZE_MESSAGE));
      }
      return Ok(this);
    }
  }

  /** A second call replaces the first call's key, and a failing call keeps
      it. */
  method ReturnGeneratedValuesTwice(first: Option<seq<Option<string>>>, second: Option<seq<Option<string>>>)
    returns (key: Option<string>)
    requires GeneratedKeyFor(first).Ok?
    ensures key == if GeneratedKeyFor(second).Ok? then Some(GeneratedKeyFor(second).value)
                   else Some(GeneratedKeyFor(first).value)
  {
    var statement := new StatementSupport();
    var r1 := statement.ReturnGeneratedValues(first);
    var r2 := statement.ReturnGeneratedValues(second);
    key := statement.generatedKeyName;
  }
}

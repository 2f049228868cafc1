/** `NamingStrategy`: how table and column names are derived from classes and
    properties. Each strategy is a converter plus a column-name cache that
    `getColumnName` fills, keyed by "owner#field". */
module Naming {
  import opened Wrappers
  import opened JavaValues
  import opened StringKit
  import MK = MappingKit


  datatype NamingKind = DEFAULT | CAMEL_CASE_TO_SNAKE_CASE | SNAKE_CASE_TO_CAMEL_CASE

  /** A character after which `splitCamelCase` does not cut before a
      capital unless a lower-case letter follows it. */
  predicate Marker(c: char) {
    IsUpper(c) || c == '_' || c == '$'
  }

  /** Where Spring's `ParsingUtils.splitCamelCase` cuts: before an upper-case
      letter that follows neither a capital nor "_" nor "$", or that starts a
      lower-case run (so "HTTPServer" splits as "HTTP", "Server" and "my_ID"
      stays whole). */
  predicate Boundary(s: string, i: int)
    requires 0 < i < |s|
  {
    IsUpper(s[i]) && (!Marker(s[i - 1]) || (i + 1 < |s| && IsLower(s[i + 1])))
  }

  /** The pieces of `splitCamelCase`, cut at every `Boundary`. */
  function CamelParts(s: string): (ws: seq<string>)
    ensures |ws| > 0
  {
    if |s| <= 1 then [s]
    else
      var rest := CamelParts(s[1..]);
      if Boundary(s, 1) then [[s[0]]] + rest else [[s[0]] + rest[0]] + rest[1..]
  }

  /** `camelCase2snakeCase`: the lower-cased pieces joined with "_"; the
      result has no upper-case letter. */
  function CamelToSnake(s: string): (r: string)
    ensures forall i :: 0 <= i < |r| ==> !IsUpper(r[i])
  {
    JoinNoUpper(LowerAll(CamelParts(s)), "_");
    Join(LowerAll(CamelParts(s)), "_")
  }

  /** `convert`: the converter of each strategy; `snakeCase2camelCase` is
      the same pipeline as `StringKit.camelCase`. */
  function Convert(kind: NamingKind, s: string): string {
    match kind
    case DEFAULT => s
    case CAMEL_CASE_TO_SNAKE_CASE => CamelToSnake(s)
    case SNAKE_CASE_TO_CAMEL_CASE => CamelCase(s)
  }

  /** No capital follows a capital, "_" or "$". */
  predicate NoUpperRun(s: string) {
    forall i :: 0 < i < |s| ==> !(Marker(s[i - 1]) && IsUpper(s[i]))
  }

  /** Without a capital after a capital, "_" or "$", Spring's split and
      `StringKit.snakeCase`'s cut at the same places. */
  lemma {:induction false} CamelPartsAreWords(s: string)
    requires NoUpperRun(s)
    ensures CamelParts(s) == Words(s)
  {
    if |s| > 1 {
      assert NoUpperRun(s[1..]) by {
        forall i | 0 < i < |s[1..]| ensures !(Marker(s[1..][i - 1]) && IsUpper(s[1..][i])) {
          assert s[1..][i - 1] == s[i] && s[1..][i] == s[i + 1];
        }
      }
      CamelPartsAreWords(s[1..]);
      assert Boundary(s, 1) <==> IsUpper(s[1]);
    }
  }

  /** The converters: `DEFAULT` is the identity; for names without a
      capital after a capital, "_" or "$", snake casing agrees with `StringKit.snakeCase`, and camel casing
      undoes it for names without "_" that start in lower case. */
  lemma ConvertRules(s: string)
    ensures Convert(NamingKind.DEFAULT, s) == s
    ensures NoUpperRun(s) ==> Convert(CAMEL_CASE_TO_SNAKE_CASE, s) == SnakeCase(s)
    ensures NoUpperRun(s) && '_' !in s && (|s| > 0 ==> !IsUpper(s[0])) ==>
      Convert(SNAKE_CASE_TO_CAMEL_CASE, Convert(CAMEL_CASE_TO_SNAKE_CASE, s)) == s
  {
    if NoUpperRun(s) {
      CamelPartsAreWords(s);
      if '_' !in s && (|s| > 0 ==> !IsUpper(s[0])) {
        CamelCaseOfSnakeCase(s);
      }
    }
  }

  /** A string with no capital after its first character is one piece. */
  lemma {:induction false} OnePiece(s: string)
    requires |s| > 0 && forall i :: 1 <= i < |s| ==> !IsUpper(s[i])
    ensures CamelParts(s) == [s]
  {
    if |s| > 1 {
      OnePiece(s[1..]);
      assert [s[0]] + s[1..] == s;
    }
  }

  const ACRONYM_NAME := "myID"
  const UNDERSCORED_NAME := "my_ID"

  /** A trailing acronym stays in one piece ("my_id"), where
      `StringKit.snakeCase` cuts before each capital ("my_i_d"). */
  lemma AcronymStaysWhole()
    ensures CamelToSnake(ACRONYM_NAME) == "my_id"
    ensures SnakeCase(ACRONYM_NAME) == "my_i_d"
  {
    var s := ACRONYM_NAME;
    assert CamelParts(s[3..]) == ["D"];
    assert CamelParts(s[2..]) == ["ID"] by { assert [s[2]] + "D" == "ID"; }
    assert CamelParts(s[1..]) == ["y", "ID"];
    assert CamelParts(s) == ["my", "ID"] by { assert [s[0]] + "y" == "my"; }
    assert LowerString("my") == "my" && LowerString("ID") == "id";
    assert LowerAll(["my", "ID"]) == ["my", "id"];
    assert Words(s[3..]) == ["D"];
    assert Words(s[2..]) == ["I", "D"];
    assert Words(s[1..]) == ["y", "I", "D"];
    assert Words(s) == ["my", "I", "D"] by { assert [s[0]] + "y" == "my"; }
    assert LowerString("I") == "i" && LowerString("D") == "d";
    assert LowerAll(["my", "I", "D"]) == ["my", "i", "d"];
  }

  /** No cut before a capital that follows "_": "my_ID" stays one piece and
      becomes "my_id", where `StringKit.snakeCase` gives "my__i_d". */
  lemma UnderscoreBeforeCapitalStaysWhole()
    ensures CamelParts(UNDERSCORED_NAME) == [UNDERSCORED_NAME]
    ensures CamelToSnake(UNDERSCORED_NAME) == "my_id"
    ensures SnakeCase(UNDERSCORED_NAME) == "my__i_d"
  {
    var s := UNDERSCORED_NAME;
    assert CamelParts(s[4..]) == ["D"];
    assert CamelParts(s[3..]) == ["ID"] by { assert [s[3]] + "D" == "ID"; }
    assert CamelParts(s[2..]) == ["_ID"] by { assert [s[2]] + "ID" == "_ID"; }
    assert CamelParts(s[1..]) == ["y_ID"] by { assert [s[1]] + "_ID" == "y_ID"; }
    assert CamelParts(s) == [s] by { assert [s[0]] + "y_ID" == s; }
    assert LowerString("my_ID") == "my_id";
    assert LowerAll([s]) == ["my_id"];
    assert Words(s[4..]) == ["D"];
    assert Words(s[3..]) == ["I", "D"];
    assert Words(s[2..]) == ["_", "I", "D"];
    assert Words(s[1..]) == ["y_", "I", "D"] by { assert [s[1]] + "_" == "y_"; }
    assert Words(s) == ["my_", "I", "D"] by { assert [s[0]] + "y_" == "my_"; }
    assert LowerString("my_") == "my_" && LowerString("I") == "i" && LowerString("D") == "d";
    assert LowerAll(["my_", "I", "D"]) == ["my_", "i", "d"];
  }

  /** `getTableName`: the `@TableEntity` name when it is not empty, else the
      converted simple class name. */
  function TableName(kind: NamingKind, entity: MK.Entity): (r: string)
  {
    var named := if entity.annotation.Some? then entity.annotation.value.name else "";
    if named == "" then Convert(kind, entity.simpleName) else named
  }

  /** The name a property's annotations give it: `@TableId.name` when the
      property has `@TableId` (its `@TableColumn` is then not read), else the
      `@TableColumn` alias, else its name; "" when none applies. */
  function AnnotatedName(p: MK.Property): string {
    if p.id.Some? then p.id.value.name
    else if p.column.Some? then
      (if p.column.value.alias == "" then p.column.value.name else p.column.value.alias)
    else ""
  }

  /** The column name `getColumnName` computes on a cache miss. */
  function ColumnName(kind: NamingKind, p: MK.Property): (r: string)
  {
    var named := AnnotatedName(p);
    if named == "" then Convert(kind, p.name) else named
  }

  /** The precedence: `@TableId.name`, then `@TableColumn.alias`, then
      `@TableColumn.name`, then the converted property name. */
  lemma ColumnNamePrecedence(kind: NamingKind, p: MK.Property)
    ensures p.id.Some? && p.id.value.name != "" ==> ColumnName(kind, p) == p.id.value.name
    ensures p.id.Some? && p.id.value.name == "" ==> ColumnName(kind, p) == Convert(kind, p.name)
    ensures p.id.None? && p.column.Some? && p.column.value.alias != "" ==>
      ColumnName(kind, p) == p.column.value.alias
    ensures p.id.None? && p.column.Some? && p.column.value.alias == "" && p.column.value.name != "" ==>
      ColumnName(kind, p) == p.column.value.name
    ensures p.id.None? && (p.column.None? || (p.column.value.alias == "" && p.column.value.name == "")) ==>
      ColumnName(kind, p) == Convert(kind, p.name)
    ensures ColumnName(kind, p) != "" || Convert(kind, p.name) == ""
  {
  }

  /** Spring's `property.getColumnName()`: `@TableColumn.name` is an alias
      of Spring's `@Column` value, so a name with text wins; only otherwise
      is the naming strategy asked, and its answer may then be the alias. */
  function PropertyColumnName(kind: NamingKind, p: MK.Property): string {
    if p.column.Some? && !BlankString(p.column.value.name) then p.column.value.name
    else ColumnName(kind, p)
  }

  /** The precedence of `getColumnName()`: a `@TableColumn.name` with text,
      then `@TableId.name`, then the `@TableColumn` alias, then the
      converted property name. It differs from the naming strategy's own
      answer exactly when a named column also carries an alias (or sits
      beside a `@TableId`) that the strategy prefers. */
  lemma PropertyColumnNamePrecedence(kind: NamingKind, p: MK.Property)
    ensures p.column.Some? && !BlankString(p.column.value.name) ==>
      PropertyColumnName(kind, p) == p.column.value.name
    ensures (p.column.None? || BlankString(p.column.value.name)) && p.id.Some? && p.id.value.name != "" ==>
      PropertyColumnName(kind, p) == p.id.value.name
    ensures p.id.None? && p.column.Some? && BlankString(p.column.value.name) && p.column.value.alias != "" ==>
      PropertyColumnName(kind, p) == p.column.value.alias
    ensures var unnamed := p.column.None? || p.column.value.name == "";
      var noIdName := p.id.None? || p.id.value.name == "";
      var noAlias := p.id.Some? || p.column.None? || p.column.value.alias == "";
      unnamed && noIdName && noAlias ==> PropertyColumnName(kind, p) == Convert(kind, p.name)
    ensures p.id.None? && p.column.Some? && p.column.value.alias == "" ==>
      PropertyColumnName(kind, p) == ColumnName(kind, p)
    ensures p.id.None? && p.column.Some? && p.column.value.alias != "" && !BlankString(p.column.value.name) ==>
      ColumnName(kind, p) == p.column.value.alias && PropertyColumnName(kind, p) == p.column.value.name
  {
  }

  /** `hasAlias` of the converter: a property is read back under a label
      other than its column when the naming strategy's name differs from
      `getColumnName()`. */
  function HasAlias(kind: NamingKind, p: MK.Property): (r: bool)
    ensures r ==> p.column.Some? && !BlankString(p.column.value.name)
    ensures p.id.None? && p.column.Some? && !BlankString(p.column.value.name) ==>
      (r <==> p.column.value.alias != "" && p.column.value.alias != p.column.value.name)
  {
    ColumnName(kind, p) != PropertyColumnName(kind, p)
  }

  /** The table-name rule, both ways round. */
  lemma TableNameRule(kind: NamingKind, entity: MK.Entity)
    ensures entity.annotation.Some? && entity.annotation.value.name != "" ==>
      TableName(kind, entity) == entity.annotation.value.name
    ensures entity.annotation.None? || entity.annotation.value.name == "" ==>
      TableName(kind, entity) == Convert(kind, entity.simpleName)
  {
  }

  const KEY_SEPARATOR := "#"

  /** `cacheKey`: owner name, "#", field name; a property without a field
      fails with a `NullPointerException`. */
  function CacheKey(ownerName: string, p: MK.Property): (r: Outcome<string>)
    ensures r.Err? <==> p.fieldName.None?
    ensures r.Ok? ==> r.value == ownerName + KEY_SEPARATOR + p.fieldName.value
  {
    match p.fieldName
    case None => Err(NullPointer)
    case Some(f) => Ok(ownerName + KEY_SEPARATOR + f)
  }

  /** A naming strategy with its column-name cache. */
  class NamingStrategy {
    const kind: NamingKind
    var columnNameCache: map<string, string>
    /** The owner and property each cache entry was computed from. */
    ghost var cachedFrom: map<string, (string, MK.Property)>

    /** Every cached name is the one computed for the property that filled
        the entry, under the key of that property. */
    ghost predicate Valid()
      reads this
    {
      columnNameCache.Keys == cachedFrom.Keys &&
      forall k :: k in cachedFrom ==>
        CacheKey(cachedFrom[k].0, cachedFrom[k].1) == Ok(k) &&
        columnNameCache[k] == ColumnName(kind, cachedFrom[k].1)
    }

    constructor(kind: NamingKind)
      ensures Valid() && this.kind == kind && columnNameCache == map[]
    {
      this.kind := kind;
      columnNameCache := map[];
      cachedFrom := map[];
    }

    /** `getSchema`: no schema is ever named. */
    function Schema(): (r: string)
      ensures |r| == 0
    {
      ""
    }

    /** `getColumnName`: the cached name when the key is cached, otherwise
        the computed name, which is then cached. */
    method GetColumnName(ownerName: string, p: MK.Property) returns (r: Outcome<string>)
      requires Valid()
      modifies this
      ensures Valid()
      ensures p.fieldName.None? ==> r == Err(NullPointer) && columnNameCache == old(columnNameCache)
      ensures p.fieldName.Some? ==> r.Ok?
      ensures p.fieldName.Some? && CacheKey(ownerName, p).value in old(columnNameCache) ==>
        r.value == old(columnNameCache)[CacheKey(ownerName, p).value] && columnNameCache == old(columnNameCache)
      ensures p.fieldName.Some? && CacheKey(ownerName, p).value !in old(columnNameCache) ==>
        r.value == ColumnName(kind, p) &&
        columnNameCache == old(columnNameCache)[CacheKey(ownerName, p).value := ColumnName(kind, p)]
    {
      var key :- CacheKey(ownerName, p);
      if key in columnNameCache {
        return Ok(columnNameCache[key]);
      }
      var name := ColumnName(kind, p);
      columnNameCache := columnNameCache[key := name];
      cachedFrom := cachedFrom[key := (ownerName, p)];
      return Ok(name);
    }
  }

  /** Asking twice for the same property gives the same name, and the second
      call leaves the cache as the first left it. */
  method GetColumnNameTwice(strategy: NamingStrategy, ownerName: string, p: MK.Property)
    returns (first: Outcome<string>, second: Outcome<string>)
    requires strategy.Valid()
    modifies strategy
    ensures strategy.Valid()
    ensures first == second
    ensures p.fieldName.Some? && CacheKey(ownerName, p).value !in old(strategy.columnNameCache) ==>
      first == Ok(ColumnName(strategy.kind, p))
  {
    first := strategy.GetColumnName(ownerName, p);
    second := strategy.GetColumnName(ownerName, p);
  }
}

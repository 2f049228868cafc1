/** `R2dbcSelectExecutor`: which expressions a SELECT projects, and how a
    `@TableReference` property turns into the query that fills it. */
module SelectExecutors {
  import opened Wrappers
  import opened JavaValues
  import MK = MappingKit
  import Naming
  import StringKit
  import C = Criteria

  // ------------------------------------------------------------ expressions

  /** A table of the SELECT: the queried table or one named by
      `@TableColumn.fromTable`. */
  datatype TableRef = TableRef(name: string)

  /** The expressions the projection is built from: `table.column(name)`,
      `Column.aliased(name, table, alias)`, `Expressions.just(sql)` and
      `SimpleFunction.create(function, arguments).as(alias)`. */
  datatype Expression =
    | ColumnOf(table: TableRef, name: string)
    | AliasedColumn(table: TableRef, name: string, alias: string)
    | Just(sql: string)
    | FunctionCall(functionName: string, arguments: seq<Expression>, alias: string)

  const SQL_AS := " AS "
  const REQUIRED_COLUMN_MESSAGE := "Required annotation TableColumn not found"
  const ALIAS_MESSAGE := "Alias must not be null with function property"

  /** The table a column is read from: its `fromTable` when one is given,
      else the queried table. */
  function ColumnTable(table: TableRef, column: MK.TableColumn): TableRef {
    if column.fromTable == "" then table else TableRef(column.fromTable)
  }

  /** The expression `createColumn` builds for a non-id column named
      `columnName`: a name with a dot is already qualified and goes out
      verbatim; any other is qualified with its table; the alias, when set,
      is appended either way. */
  function ColumnExpression(table: TableRef, column: MK.TableColumn, columnName: string): (r: Expression)
    ensures '.' in columnName ==> r == Just(if column.alias == "" then columnName else columnName + SQL_AS + column.alias)
    ensures '.' !in columnName && column.alias == "" ==> r == ColumnOf(ColumnTable(table, column), columnName)
    ensures '.' !in columnName && column.alias != "" ==>
      r == AliasedColumn(ColumnTable(table, column), columnName, column.alias)
  {
    var columnTable := ColumnTable(table, column);
    if column.alias == "" then
      if '.' in columnName then Just(columnName) else ColumnOf(columnTable, columnName)
    else
      if '.' in columnName then Just(columnName + SQL_AS + column.alias)
      else AliasedColumn(columnTable, columnName, column.alias)
  }

  /** `createColumn`: an id property is the queried table's column;
      any other needs `@TableColumn` and is the expression of its
      `getColumnName()`, taken from `fromTable` and labelled with its
      alias. */
  function CreateColumn(kind: Naming.NamingKind, p: MK.Property, table: TableRef): (r: Outcome<Expression>)
    ensures r.Err? <==> !p.isId && p.column.None?
    ensures r.Err? ==> r.error == IllegalState(REQUIRED_COLUMN_MESSAGE)
    ensures p.isId ==> r == Ok(ColumnOf(table, Naming.PropertyColumnName(kind, p)))
  {
    if p.isId then Ok(ColumnOf(table, Naming.PropertyColumnName(kind, p)))
    else if p.column.None? then Err(IllegalState(REQUIRED_COLUMN_MESSAGE))
    else Ok(ColumnExpression(table, p.column.value, Naming.PropertyColumnName(kind, p)))
  }

  /** A non-id property is read from the column `@TableColumn.name` names
      when it has text, from the alias when only an alias is given, and
      from its converted name when neither is; the alias, when set, labels
      it in every case. */
  lemma CreateColumnReadsNamedColumn(kind: Naming.NamingKind, p: MK.Property, table: TableRef)
    requires !p.isId && p.column.Some?
    ensures var col := p.column.value;
      !StringKit.BlankString(col.name) ==> CreateColumn(kind, p, table) == Ok(ColumnExpression(table, col, col.name))
    ensures var col := p.column.value;
      p.id.None? && StringKit.BlankString(col.name) && col.alias != "" ==>
        CreateColumn(kind, p, table) == Ok(ColumnExpression(table, col, col.alias))
    ensures var col := p.column.value;
      p.id.None? && col.name == "" && col.alias == "" ==>
        CreateColumn(kind, p, table) == Ok(ColumnExpression(table, col, Naming.Convert(kind, p.name)))
  {
    Naming.PropertyColumnNamePrecedence(kind, p);
  }

  /** The column of `TableVO.subContent` in the example application, a
      qualified name under an alias. */
  const SUB_CONTENT_COLUMN := MK.TableColumn("sub_table.content", "subContent", "", "", "", true, false,
                                             MK.Validation.DEFAULT, MK.DefaultHandler)
  const SUB_CONTENT := MK.Property("subContent", Some("subContent"), false, false, false,
                                   MK.JavaType("String", false, false), Some(SUB_CONTENT_COLUMN), None, None)

  /** The column of `OrderDTO.itemId`: `id` of `order_item`, under an alias. */
  const ITEM_ID_COLUMN := MK.TableColumn("id", "itemId", "", "", "order_item", true, false,
                                         MK.Validation.DEFAULT, MK.DefaultHandler)
  const ITEM_ID := MK.Property("itemId", Some("itemId"), false, false, false,
                               MK.JavaType("String", false, false), Some(ITEM_ID_COLUMN), None, None)

  /** The example application's aliased columns: `subContent` selects
      `sub_table.content AS subContent` verbatim and `itemId` selects
      `order_item.id` labelled `itemId`, although the naming strategy alone
      would name both after their alias. */
  lemma AliasedExamples(kind: Naming.NamingKind)
    ensures Naming.ColumnName(kind, SUB_CONTENT) == "subContent"
    ensures CreateColumn(kind, SUB_CONTENT, TableRef("t")) == Ok(Just("sub_table.content AS subContent"))
    ensures Naming.ColumnName(kind, ITEM_ID) == "itemId"
    ensures CreateColumn(kind, ITEM_ID, TableRef("t")) == Ok(AliasedColumn(TableRef("order_item"), "id", "itemId"))
  {
    assert "sub_table.content"[9] == '.';
    assert !StringKit.BlankString("sub_table.content") by {
      assert StringKit.IndexOfNonWhitespace("sub_table.content") == 0;
    }
    assert !StringKit.BlankString("id") by {
      assert StringKit.IndexOfNonWhitespace("id") == 0;
    }
    assert "sub_table.content" + SQL_AS + "subContent" == "sub_table.content AS subContent";
    assert '.' !in "id";
  }

  /** `createFunction`, for aggregate entities: a function property becomes
      `function(name) AS alias` and needs an alias; any other property is
      its `@TableColumn.name`, with ` AS alias` when an alias is set. */
  function CreateFunction(p: MK.Property): (r: Outcome<Expression>)
    ensures r.Err? <==> p.column.None? || (MK.IsFunctionProperty(p) && p.column.value.alias == "")
    ensures r.Err? && p.column.Some? ==> r.error == IllegalArgument(ALIAS_MESSAGE)
    ensures r.Ok? && MK.IsFunctionProperty(p) ==>
      r.value == FunctionCall(p.column.value.functionName, [Just(p.column.value.name)], p.column.value.alias)
    ensures r.Ok? && !MK.IsFunctionProperty(p) ==>
      r.value == Just(p.column.value.name + (if p.column.value.alias == "" then "" else SQL_AS + p.column.value.alias))
  {
    if p.column.None? then Err(IllegalState(REQUIRED_COLUMN_MESSAGE))
    else
      var column := p.column.value;
      if MK.IsFunctionProperty(p) then
        if column.alias == "" then Err(IllegalArgument(ALIAS_MESSAGE))
        else Ok(FunctionCall(column.functionName, [Just(column.name)], column.alias))
      else Ok(Just(column.name + (if column.alias == "" then "" else SQL_AS + column.alias)))
  }

  // ------------------------------------------------------------ projection

  /** The return type of the query: a class, or an interface whose
      projection is closed (with its input properties) or open. */
  datatype ReturnType = ClassType | InterfaceType(closed: bool, inputProperties: seq<string>)

  /** The properties that are columns of the table, in order. */
  function ExistingProperties(ps: seq<MK.Property>): (r: seq<MK.Property>)
    ensures forall p :: p in r <==> p in ps && MK.IsPropertyExists(Some(p))
    ensures |r| <= |ps|
  {
    if |ps| == 0 then []
    else (if MK.IsPropertyExists(Some(ps[0])) then [ps[0]] else []) + ExistingProperties(ps[1..])
  }

  /** The queried table's column for each name. */
  function TableColumns(table: TableRef, names: seq<string>): (r: seq<Expression>)
    ensures |r| == |names|
    ensures forall i :: 0 <= i < |names| ==> r[i] == ColumnOf(table, names[i])
  {
    if |names| == 0 then [] else [ColumnOf(table, names[0])] + TableColumns(table, names[1..])
  }

  /** The expression of one property: `createFunction` for an aggregate
      entity, `createColumn` otherwise. */
  function PropertyExpression(kind: Naming.NamingKind, table: TableRef, aggregate: bool, p: MK.Property)
    : Outcome<Expression>
  {
    if aggregate then CreateFunction(p) else CreateColumn(kind, p, table)
  }

  /** `PropertyExpression` for one table and entity kind. */
  function ExpressionOf(kind: Naming.NamingKind, table: TableRef, aggregate: bool): MK.Property -> Outcome<Expression> {
    p => PropertyExpression(kind, table, aggregate, p)
  }

  /** The expressions of `ps` under `expression`, in order; the first
      property that fails fails the whole list, as the stream does. */
  function Expressions(ps: seq<MK.Property>, expression: MK.Property -> Outcome<Expression>)
    : (r: Outcome<seq<Expression>>)
    ensures r.Ok? ==> |r.value| == |ps|
  {
    if |ps| == 0 then Ok([])
    else
      var head :- expression(ps[0]);
      var tail :- Expressions(ps[1..], expression);
      Ok([head] + tail)
  }

  /** `getSelectProjection`: the query's own columns first, then the input
      properties of a closed interface projection, else one expression per
      property that exists in the table. */
  function SelectProjection(kind: Naming.NamingKind, table: TableRef, queryColumns: seq<string>,
                            returnType: ReturnType, entity: MK.Entity): (r: Outcome<seq<Expression>>)
    ensures |queryColumns| > 0 ==> r == Ok(TableColumns(table, queryColumns))
    ensures |queryColumns| == 0 && returnType.InterfaceType? && returnType.closed ==>
      r == Ok(TableColumns(table, returnType.inputProperties))
  {
    if |queryColumns| > 0 then Ok(TableColumns(table, queryColumns))
    else if returnType.InterfaceType? && returnType.closed then Ok(TableColumns(table, returnType.inputProperties))
    else
      Expressions(ExistingProperties(entity.properties), ExpressionOf(kind, table, MK.IsAggregateEntity(Some(entity))))
  }

  /** The list succeeds exactly when every property's expression does, and
      then holds those expressions in order. */
  lemma {:induction false} ExpressionsAll(ps: seq<MK.Property>, expression: MK.Property -> Outcome<Expression>)
    ensures var r := Expressions(ps, expression);
      (r.Ok? <==> forall i :: 0 <= i < |ps| ==> expression(ps[i]).Ok?) &&
      (r.Ok? ==> forall i :: 0 <= i < |ps| ==> r.value[i] == expression(ps[i]).value)
    decreases |ps|
  {
    if |ps| > 0 {
      ExpressionsAll(ps[1..], expression);
      assert forall i :: 1 <= i < |ps| ==> ps[1..][i - 1] == ps[i];
    }
  }

  /** For an entity that is not an aggregate, the projection never fails:
      every existing property is an id or has `@TableColumn`, and each gets
      its column in order. */
  lemma EntityProjectionSucceeds(kind: Naming.NamingKind, table: TableRef, returnType: ReturnType, entity: MK.Entity)
    requires !MK.IsAggregateEntity(Some(entity))
    requires !(returnType.InterfaceType? && returnType.closed)
    ensures var existing := ExistingProperties(entity.properties);
      var r := SelectProjection(kind, table, [], returnType, entity);
      r.Ok? && |r.value| == |existing| &&
      forall i :: 0 <= i < |existing| ==> Ok(r.value[i]) == CreateColumn(kind, existing[i], table)
  {
    var existing := ExistingProperties(entity.properties);
    var expression := ExpressionOf(kind, table, false);
    ExpressionsAll(existing, expression);
    forall i | 0 <= i < |existing|
      ensures expression(existing[i]) == CreateColumn(kind, existing[i], table)
      ensures CreateColumn(kind, existing[i], table).Ok?
    {
      assert existing[i] in existing;
    }
  }

  /** What `createFunction` refuses: a property without `@TableColumn`, or
      a function column without an alias. */
  predicate Unprojectable(p: MK.Property) {
    p.column.None? || (MK.IsFunctionProperty(p) && p.column.value.alias == "")
  }

  /** Some property of `ps` is unprojectable. */
  predicate AnyUnprojectable(ps: seq<MK.Property>) {
    exists i :: 0 <= i < |ps| && Unprojectable(ps[i])
  }

  /** For an aggregate entity the projection fails exactly when some
      existing property lacks `@TableColumn` or is a function without an
      alias. */
  lemma AggregateProjectionRule(kind: Naming.NamingKind, table: TableRef, returnType: ReturnType, entity: MK.Entity)
    requires MK.IsAggregateEntity(Some(entity))
    requires !(returnType.InterfaceType? && returnType.closed)
    ensures SelectProjection(kind, table, [], returnType, entity).Err? <==>
      AnyUnprojectable(ExistingProperties(entity.properties))
  {
    var existing := ExistingProperties(entity.properties);
    var expression := ExpressionOf(kind, table, true);
    ExpressionsAll(existing, expression);
    forall i | 0 <= i < |existing|
      ensures expression(existing[i]).Ok? <==> !Unprojectable(existing[i])
    {
      assert expression(existing[i]) == CreateFunction(existing[i]);
    }
    assert SelectProjection(kind, table, [], returnType, entity) == Expressions(existing, expression);
  }

  // ------------------------------------------------------------ String.split

  /** The pieces of the shorter inputs used below. */
  lemma PiecesOfCommas()
    ensures StringKit.Pieces(",", ",") == ["", ""]
    ensures StringKit.Pieces(",,", ",") == ["", "", ""]
  {
    assert StringKit.Pieces("", ",") == [""];
    StringKit.PiecesStep(',', "", ',');
    assert "," == [','] + "";
    StringKit.PiecesStep(',', ",", ',');
    assert ",," == [','] + ",";
  }

  lemma PiecesOfABCommas()
    ensures StringKit.Pieces("a,b,,", ",") == ["a", "b", "", ""]
  {
    PiecesOfCommas();
    StringKit.PiecesStep('b', ",,", ',');
    assert "b,," == ['b'] + ",,";
    assert ['b'] + "" == "b";
    assert StringKit.Pieces("b,,", ",") == ["b", "", ""];
    StringKit.PiecesStep(',', "b,,", ',');
    assert ",b,," == [','] + "b,,";
    assert StringKit.Pieces(",b,,", ",") == ["", "b", "", ""];
    StringKit.PiecesStep('a', ",b,,", ',');
    assert "a,b,," == ['a'] + ",b,,";
    assert ['a'] + "" == "a";
  }

  /** Concrete cases: trailing pieces go, inner ones stay, and an input that
      does not hold the delimiter is kept whole, even "". */
  lemma SplitExamples()
    ensures StringKit.Split("a,b,,", ",") == ["a", "b"]
    ensures StringKit.Split(",", ",") == []
    ensures StringKit.Split("", ",") == [""]
  {
    assert StringKit.Pieces("", ",") == [""];
    PiecesOfCommas();
    PiecesOfABCommas();
    assert StringKit.DropTrailingEmpty(["a", "b", "", ""]) == ["a", "b"] by {
      assert ["a", "b", "", ""][..3] == ["a", "b", ""];
      assert ["a", "b", ""][..2] == ["a", "b"];
    }
    assert StringKit.DropTrailingEmpty(["", ""]) == [] by {
      assert ["", ""][..1] == [""];
      assert [""][..0] == [];
    }
  }

  // ------------------------------------------------------------ references

  /** `TableReference.ReferenceCondition`: `EQ` compares with `is`, `IN`
      with `in`. */
  datatype ReferenceCondition = EQ | IN

  /** The `@TableReference` annotation of a property. */
  datatype TableReference = TableReference(
    keyColumn: string, delimiter: string, referenceColumn: string, referenceCondition: ReferenceCondition)

  const PROPERTY_MESSAGE := "Property must not be null."
  const FIELD_MESSAGE := "Field must not be null."

  /** The property of the result whose value is looked for in the referenced
      table: the id when `keyColumn` is empty, else the property named so; it
      must exist and have a field. */
  function ReferenceKey(entity: MK.Entity, annotation: TableReference): (r: Outcome<MK.Property>)
    ensures r.Ok? ==> r.value in entity.properties && r.value.fieldName.Some?
    ensures r.Ok? && annotation.keyColumn == "" ==> r.value.isId
    ensures r.Ok? && annotation.keyColumn != "" ==> r.value.name == annotation.keyColumn
    ensures annotation.keyColumn == "" && MK.IdProperty(entity).None? ==> r == Err(IllegalArgument(PROPERTY_MESSAGE))
    ensures annotation.keyColumn != "" && MK.PropertyNamed(entity, annotation.keyColumn).None? ==>
      r == Err(IllegalArgument(PROPERTY_MESSAGE))
  {
    var key := if annotation.keyColumn == "" then MK.IdProperty(entity) else MK.PropertyNamed(entity, annotation.keyColumn);
    if key.None? then Err(IllegalArgument(PROPERTY_MESSAGE))
    else if key.value.fieldName.None? then Err(IllegalArgument(FIELD_MESSAGE))
    else Ok(key.value)
  }

  function Strs(parts: seq<string>): (r: seq<Value>)
    ensures |r| == |parts| && forall i :: 0 <= i < |parts| ==> r[i] == Str(parts[i])
  {
    if |parts| == 0 then [] else [Str(parts[0])] + Strs(parts[1..])
  }

  /** The value `Reference.build` keeps: a string is split into a `String[]`
      when the annotation has a delimiter; anything else is kept. The array's
      identity is a parameter. The array holds the pieces between the
      delimiters, which join back to the string, less the trailing empty
      ones. */
  function ReferenceValue(raw: Value, delimiter: string, identity: string): (r: Value)
    ensures !(raw.Str? && delimiter != "") ==> r == raw
    ensures raw.Str? && delimiter != "" ==>
      var pieces := StringKit.Pieces(raw.s, delimiter);
      Join(pieces, delimiter) == raw.s &&
      r.Array? && r.identity == identity && |r.elements| <= |pieces| &&
      (forall i :: 0 <= i < |r.elements| ==> r.elements[i] == Str(pieces[i])) &&
      (forall i :: |r.elements| <= i < |pieces| ==> pieces[i] == "") &&
      (|pieces| > 1 && |r.elements| > 0 ==> r.elements[|r.elements| - 1] != Str(""))
  {
    if raw.Str? && delimiter != "" then
      StringKit.SplitDropsOnlyEmpty(raw.s, delimiter);
      Array(Strs(StringKit.Split(raw.s, delimiter)), identity)
    else raw
  }

  /** `canReference`. */
  predicate CanReference(value: Value) {
    !IsEmptyObject(value)
  }

  /** The condition `buildMono` uses: `IN` for a collection or an array,
      the annotation's otherwise. */
  function EffectiveCondition(annotation: TableReference, value: Value): (r: ReferenceCondition)
    ensures value.Collection? || value.Array? ==> r == IN
    ensures !value.Collection? && !value.Array? ==> r == annotation.referenceCondition
  {
    if value.Collection? || value.Array? then IN else annotation.referenceCondition
  }

  /** The criteria of the reference query: `where(referenceColumn)`, then
      `is(value)` or `in(value)`; the single argument passed to the varargs
      `in` makes the value the one element of the list. */
  function ReferenceCriteria(annotation: TableReference, value: Value): (r: Outcome<C.Criteria>)
    ensures r.Ok? ==> !StringKit.BlankString(annotation.referenceColumn)
    ensures r.Ok? ==> r.value.column == Some(annotation.referenceColumn)
    ensures r.Ok? ==> (r.value.comparator ==
      Some(if EffectiveCondition(annotation, value) == IN then C.Comparator.IN else C.Comparator.EQ))
  {
    var step :- C.Where(annotation.referenceColumn);
    match EffectiveCondition(annotation, value)
    case EQ => C.Compare(step, C.Comparator.EQ, value)
    case IN => C.InValues(step, false, [value])
  }

  /** How the referenced rows are fetched: all of them into a list for a
      collection-like property, one otherwise. */
  datatype Fetch = ALL_AS_LIST | ONE

  datatype ReferenceQuery = ReferenceQuery(criteria: C.Criteria, fetch: Fetch)

  /** What `Reference.build`, `canReference` and `buildMono` make of one
      reference property of a result: a failure, nothing to fetch, or the
      query. */
  function PlanReference(entity: MK.Entity, annotation: TableReference, collectionLike: bool,
                         result: map<string, Value>, identity: string): (r: Outcome<Option<ReferenceQuery>>)
  {
    var key :- ReferenceKey(entity, annotation);
    var value := ReferenceValue(if key.name in result then result[key.name] else Null, annotation.delimiter, identity);
    if !CanReference(value) then Ok(None)
    else
      var criteria :- ReferenceCriteria(annotation, value);
      Ok(Some(ReferenceQuery(criteria, if collectionLike then ALL_AS_LIST else ONE)))
  }

  /** A reference whose key holds nothing (null, "", an empty collection or
      array or map) is not fetched; one whose key holds a collection or an
      array is fetched with `IN`; a collection-like property takes every
      row. */
  lemma PlanReferenceRules(entity: MK.Entity, annotation: TableReference, collectionLike: bool,
                           result: map<string, Value>, identity: string)
    ensures var r := PlanReference(entity, annotation, collectionLike, result, identity);
      var key := ReferenceKey(entity, annotation);
      (r.Ok? ==> key.Ok?) &&
      (key.Ok? ==>
        var value := ReferenceValue(if key.value.name in result then result[key.value.name] else Null,
                                    annotation.delimiter, identity);
        (IsEmptyObject(value) ==> r == Ok(None)) &&
        (r.Ok? && r.value.Some? ==>
          !IsEmptyObject(value) &&
          r.value.value.fetch == (if collectionLike then ALL_AS_LIST else ONE) &&
          ((value.Collection? || value.Array?) ==> r.value.value.criteria.comparator == Some(C.Comparator.IN))))
  {
  }

  /** A blank key is not fetched without a delimiter, but with one it
      splits into `[""]`, which is not empty, and is fetched. */
  lemma EmptyKeyWithDelimiter(identity: string)
    ensures !CanReference(ReferenceValue(Str(""), "", identity))
    ensures ReferenceValue(Str(""), ",", identity) == Array([Str("")], identity)
    ensures CanReference(ReferenceValue(Str(""), ",", identity))
  {
    SplitExamples();
  }
}

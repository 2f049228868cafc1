/** `R2dbcInsertExecutor`: how an entity becomes an INSERT. Its version
    property is initialised, its id generated when the id strategy asks for
    it, the converted row loses an id column that holds no usable value, and
    the insert binds every column of the row that carries a value. */
module InsertExecutors {
  import opened Wrappers
  import opened JavaValues
  import opened OutboundRows
  import MK = MappingKit
  import IdKit
  import Naming

  // ------------------------------------------------------------ id rules

  /** `shouldSkipIdValue`: no parameter, a parameter without a value, and a
      number whose `longValue()` is 0 are not inserted; anything else is. */
  predicate ShouldSkipIdValue(value: Option<Parameter>) {
    value.None? || value.value.value.Null? || (value.value.value.Num? && WrapLong(value.value.value.n) == 0)
  }

  /** Against `IdKit.isIdEffective`: for null and numbers the insert skips
      exactly the ids that are not effective, but a string id is always
      inserted, even "" and "0", and so is every other kind of value. */
  lemma SkipIdAgreesWithIdKit(value: Option<Parameter>)
    ensures value.None? ==> ShouldSkipIdValue(value)
    ensures value.Some? && (value.value.value.Null? || value.value.value.Num?) ==>
      (ShouldSkipIdValue(value) <==> !IdKit.IsIdEffective(value.value.value))
    ensures value.Some? && !value.value.value.Null? && !value.value.value.Num? ==> !ShouldSkipIdValue(value)
    ensures !ShouldSkipIdValue(Some(Parameter(Str("0")))) && !IdKit.IsIdEffective(Str("0"))
  {
    assert Some("0") in IdKit.ID_DEFAULT_VALUES;
  }

  /** The id strategy in force for an id property: its `@TableId` strategy
      unless that is `DEFAULT`, else the global one. */
  function EffectiveIdStrategy(global: MK.IdStrategy, tableId: Option<MK.TableId>): (r: MK.IdStrategy)
    ensures tableId.Some? && tableId.value.idStrategy != MK.DEFAULT ==> r == tableId.value.idStrategy
    ensures tableId.None? || tableId.value.idStrategy == MK.DEFAULT ==> r == global
  {
    if tableId.Some? && tableId.value.idStrategy != MK.DEFAULT then tableId.value.idStrategy else global
  }

  /** `shouldGeneratorIdValue`. */
  predicate ShouldGeneratorIdValue(global: MK.IdStrategy, idProperty: MK.Property) {
    EffectiveIdStrategy(global, idProperty.id) == MK.USE_GENERATOR
  }

  /** An id is generated exactly when the most specific non-`DEFAULT`
      strategy is `USE_GENERATOR`; a `DEFAULT` annotation defers to the
      global setting, and a global `DEFAULT` never generates on its own. */
  lemma GeneratorRule(global: MK.IdStrategy, idProperty: MK.Property)
    ensures idProperty.id.Some? && idProperty.id.value.idStrategy != MK.DEFAULT ==>
      (ShouldGeneratorIdValue(global, idProperty) <==> idProperty.id.value.idStrategy == MK.USE_GENERATOR)
    ensures idProperty.id.None? || idProperty.id.value.idStrategy == MK.DEFAULT ==>
      (ShouldGeneratorIdValue(global, idProperty) <==> global == MK.USE_GENERATOR)
    ensures global == MK.DEFAULT && ShouldGeneratorIdValue(global, idProperty) ==>
      idProperty.id.Some? && idProperty.id.value.idStrategy == MK.USE_GENERATOR
  {
  }

  // ------------------------------------------------------------ entity changes

  /** The value `setVersionIfNecessary` writes: 1 into a primitive version,
      0 into a boxed one. */
  function InitialVersion(versionProperty: MK.Property): (r: int)
    ensures 0 <= r <= 1
    ensures r == 1 <==> versionProperty.javaType.isPrimitive
  {
    if versionProperty.javaType.isPrimitive then 1 else 0
  }

  /** The property values after `setVersionIfNecessary`. */
  function Versioned(entity: MK.Entity, values: map<string, Value>): (r: map<string, Value>)
    ensures MK.VersionProperty(entity).None? ==> r == values
    ensures MK.VersionProperty(entity).Some? ==>
      var v := MK.VersionProperty(entity).value;
      r == values[v.name := Num(InitialVersion(v))]
  {
    var v := MK.VersionProperty(entity);
    if v.None? then values else values[v.value.name := Num(InitialVersion(v.value))]
  }

  /** `setVersionIfNecessary`: an entity without a version property is left
      alone; otherwise its version starts over, whatever it held. */
  method SetVersionIfNecessary(entity: MK.Entity, bean: Bean)
    modifies bean
    ensures bean.properties == Versioned(entity, old(bean.properties))
  {
    var v := MK.VersionProperty(entity);
    if v.None? {
      return;
    }
    bean.SetProperty(v.value.name, Num(InitialVersion(v.value)));
  }

  /** The property values after `potentiallyGeneratorId` with `generated` as
      the generator's next value. */
  function WithGeneratedId(global: MK.IdStrategy, entity: MK.Entity, values: map<string, Value>, generated: Value)
    : (r: map<string, Value>)
    ensures forall name :: name in values && name in r && r[name] != values[name] ==>
      MK.IdProperty(entity).Some? && name == MK.IdProperty(entity).value.name
    ensures MK.IdProperty(entity).Some? && ShouldGeneratorIdValue(global, MK.IdProperty(entity).value) ==>
      r == values[MK.IdProperty(entity).value.name := generated]
    ensures MK.IdProperty(entity).None? || !ShouldGeneratorIdValue(global, MK.IdProperty(entity).value) ==>
      r == values
  {
    var id := MK.IdProperty(entity);
    if id.Some? && ShouldGeneratorIdValue(global, id.value) then values[id.value.name := generated] else values
  }

  /** `potentiallyGeneratorId`. */
  method PotentiallyGeneratorId(global: MK.IdStrategy, entity: MK.Entity, bean: Bean, generated: Value)
    modifies bean
    ensures bean.properties == WithGeneratedId(global, entity, old(bean.properties), generated)
  {
    var id := MK.IdProperty(entity);
    if id.None? {
      return;
    }
    if ShouldGeneratorIdValue(global, id.value) {
      bean.SetProperty(id.value.name, generated);
    }
  }

  // ------------------------------------------------------------ row changes

  /** The id column of the entity, its `getColumnName()`, if it has an id
      property. */
  function IdColumn(kind: Naming.NamingKind, entity: MK.Entity): Option<string> {
    var id := MK.IdProperty(entity);
    if id.Some? then Some(Naming.PropertyColumnName(kind, id.value)) else None
  }

  /** The row after `potentiallyRemoveId`. */
  function IdPruned(idColumn: Option<string>, entries: seq<Entry>): seq<Entry> {
    if idColumn.Some? && ShouldSkipIdValue(Lookup(entries, idColumn.value)) then Without(entries, idColumn.value)
    else entries
  }

  /** Pruning the id drops at most the id column, and the id column is left
      only with a usable value. */
  lemma IdPrunedKeepsUsableId(idColumn: Option<string>, entries: seq<Entry>)
    requires DistinctColumns(entries)
    ensures DistinctColumns(IdPruned(idColumn, entries))
    ensures forall e :: e in IdPruned(idColumn, entries) <==>
      e in entries && !(idColumn.Some? && e.0 == idColumn.value && ShouldSkipIdValue(Some(e.1)))
    ensures idColumn.Some? && idColumn.value in Columns(IdPruned(idColumn, entries)) ==>
      !ShouldSkipIdValue(Lookup(IdPruned(idColumn, entries), idColumn.value))
  {
    WithoutDistinct(entries, if idColumn.Some? then idColumn.value else "");
    forall e | e in entries && idColumn.Some? && e.0 == idColumn.value
      ensures Lookup(entries, idColumn.value) == Some(e.1)
    {
      var i :| 0 <= i < |entries| && entries[i] == e;
      LookupEntry(entries, i);
    }
  }

  /** `potentiallyRemoveId`. */
  method PotentiallyRemoveId(kind: Naming.NamingKind, entity: MK.Entity, row: OutboundRow)
    requires row.Valid()
    modifies row
    ensures row.Valid()
    ensures row.entries == IdPruned(IdColumn(kind, entity), old(row.entries))
  {
    var id := MK.IdProperty(entity);
    if id.None? {
      return;
    }
    var columnName := Naming.PropertyColumnName(kind, id.value);
    var parameter := row.Get(columnName);
    if ShouldSkipIdValue(parameter) {
      var removed := row.Remove(columnName);
    }
  }

  // ------------------------------------------------------------ the insert

  const UNSUPPORTED_MESSAGE := "Unsupported operation"

  /** `fetch(parameter)`: an insert is always of an entity; asked to insert
      without one, the executor refuses whatever the parameter holds. */
  function FetchWithoutEntity<P>(parameter: P): (r: Outcome<P>)
    ensures r == Err(UnsupportedOperation(UNSUPPORTED_MESSAGE))
  {
    Err(UnsupportedOperation(UNSUPPORTED_MESSAGE))
  }

  /** The `InsertSpec` the statement mapper renders: a table and the bound
      columns in order. */
  datatype InsertSpec = InsertSpec(table: string, columns: seq<Entry>)

  /** The entries that carry a value, in order. */
  function WithValues(entries: seq<Entry>): seq<Entry> {
    if |entries| == 0 then []
    else
      var last := entries[|entries| - 1];
      WithValues(entries[..|entries| - 1]) + (if HasValue(last.1) then [last] else [])
  }

  /** `defaultSpecBuilder`: one pass over the row, binding each column whose
      parameter has a value. */
  method BuildInsertSpec(table: string, row: OutboundRow) returns (spec: InsertSpec)
    ensures spec == InsertSpec(table, WithValues(row.entries))
  {
    spec := InsertSpec(table, []);
    var entries := row.entries;
    for i := 0 to |entries|
      invariant spec == InsertSpec(table, WithValues(entries[..i]))
    {
      assert entries[..i + 1][..i] == entries[..i];
      if HasValue(entries[i].1) {
        spec := spec.(columns := spec.columns + [entries[i]]);
      }
    }
    assert entries[..|entries|] == entries;
  }

  /** The insert binds exactly the row's entries that carry a value. */
  lemma {:induction false} WithValuesMembers(entries: seq<Entry>)
    ensures forall e :: e in WithValues(entries) <==> e in entries && HasValue(e.1)
    decreases |entries|
  {
    if |entries| > 0 {
      var init := entries[..|entries| - 1];
      WithValuesMembers(init);
      assert entries == init + [entries[|entries| - 1]];
    }
  }

  /** ... in the row's order: binding a concatenation binds each part. */
  lemma {:induction false} WithValuesAppend(a: seq<Entry>, b: seq<Entry>)
    ensures WithValues(a + b) == WithValues(a) + WithValues(b)
    decreases |b|
  {
    if |b| == 0 {
      assert a + b == a;
    } else {
      assert (a + b)[..|a + b| - 1] == a + b[..|b| - 1];
      WithValuesAppend(a, b[..|b| - 1]);
    }
  }

  /** A row whose parameters all carry values is bound whole. */
  lemma {:induction false} WithValuesOfFullRow(entries: seq<Entry>)
    requires forall i :: 0 <= i < |entries| ==> HasValue(entries[i].1)
    ensures WithValues(entries) == entries
    decreases |entries|
  {
    if |entries| > 0 {
      WithValuesOfFullRow(entries[..|entries| - 1]);
      assert entries[..|entries| - 1] + [entries[|entries| - 1]] == entries;
    }
  }

  /** The insert part of `fetch(entity, parameter)`, without the callbacks:
      the version is initialised, the id generated, the entity converted to
      a row by `write`, the id pruned and the spec built. */
  method PrepareInsert(global: MK.IdStrategy, kind: Naming.NamingKind, entity: MK.Entity, table: string,
                       bean: Bean, write: map<string, Value> -> seq<Entry>, generated: Value)
    returns (spec: InsertSpec)
    requires forall values :: DistinctColumns(write(values))
    modifies bean
    ensures bean.properties == WithGeneratedId(global, entity, Versioned(entity, old(bean.properties)), generated)
    ensures spec == InsertSpec(table, WithValues(IdPruned(IdColumn(kind, entity), write(bean.properties))))
  {
    SetVersionIfNecessary(entity, bean);
    PotentiallyGeneratorId(global, entity, bean, generated);
    var row := new OutboundRow(write(bean.properties));
    PotentiallyRemoveId(kind, entity, row);
    spec := BuildInsertSpec(table, row);
  }

  /** What the insert binds: every entry of the converted row that has a
      value, except an id column whose value cannot serve as an id. */
  lemma InsertBinds(idColumn: Option<string>, entries: seq<Entry>)
    requires DistinctColumns(entries)
    ensures forall e :: e in WithValues(IdPruned(idColumn, entries)) <==>
      e in entries && HasValue(e.1) && !(idColumn.Some? && e.0 == idColumn.value && ShouldSkipIdValue(Some(e.1)))
  {
    IdPrunedKeepsUsableId(idColumn, entries);
    WithValuesMembers(IdPruned(idColumn, entries));
  }
}

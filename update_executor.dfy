/** `R2dbcUpdateExecutor`: how an entity becomes an UPDATE. A versioned
    entity is matched on the version it was read with and written with the
    next one; the converted row loses its id column and every insert-only or
    ineffective property; the update is restricted to the entity's id; and
    an update that touches no row is an error. */
module UpdateExecutors {
  import opened Wrappers
  import opened JavaValues
  import opened OutboundRows
  import MK = MappingKit
  import Validation
  import Naming
  import StringKit
  import C = Criteria
  import InsertExecutors

  // ------------------------------------------------------------ the version

  const CONVERSION_MESSAGE := "Failed to convert the version to java.lang.Long"

  /** `incrementVersion`'s new value: 1 for a null version, else the version
      as a `long` plus one, wrapping as `long` arithmetic does. A value the
      conversion service cannot turn into a `Long` fails. */
  function IncrementVersion(current: Value): (r: Outcome<int>)
    ensures r.Ok? <==> current.Null? || current.Num?
    ensures r.Ok? ==> LONG_MIN <= r.value <= LONG_MAX
    ensures current.Null? ==> r == Ok(1)
    ensures current.Num? ==> r == Ok(WrapLong(current.n + 1))
  {
    match current
    case Null => Ok(1)
    case Num(n) =>
      LongIncrement(n);
      Ok(WrapLong(WrapLong(n) + 1))
    case _ => Err(Runtime(CONVERSION_MESSAGE))
  }

  /** Reading a number as a `long` first does not change `long` addition. */
  lemma LongIncrement(n: int)
    ensures WrapLong(WrapLong(n) + 1) == WrapLong(n + 1)
  {
    var w := WrapLong(n);
    var m := 0x1_0000_0000_0000_0000;
    assert (w - n) % m == 0;
    var k := (w - n) / m;
    assert w + 1 == (n + 1) + k * m;
    WrapLongPeriodic(n + 1, k);
  }

  lemma WrapLongPeriodic(x: int, k: int)
    ensures WrapLong(x + k * 0x1_0000_0000_0000_0000) == WrapLong(x)
  {
    var m := 0x1_0000_0000_0000_0000;
    assert (x + k * m) % m == x % m;
  }

  /** A version in range below the largest `long` goes up by exactly one;
      the largest wraps to the smallest. */
  lemma IncrementVersionSteps(n: int)
    ensures LONG_MIN <= n < LONG_MAX ==> IncrementVersion(Num(n)) == Ok(n + 1)
    ensures IncrementVersion(Num(LONG_MAX)) == Ok(LONG_MIN)
  {
  }

  /** The version an insert writes is followed, at the first update, by
      the next number: 2 for a primitive version, 1 for a boxed one. */
  lemma FirstUpdateAfterInsert(versionProperty: MK.Property)
    ensures IncrementVersion(Num(InsertExecutors.InitialVersion(versionProperty))) ==
      Ok(if versionProperty.javaType.isPrimitive then 2 else 1)
  {
  }

  /** The property values after `incrementVersion`. */
  function Incremented(entity: MK.Entity, values: map<string, Value>): (r: Outcome<map<string, Value>>)
    ensures MK.VersionProperty(entity).None? ==> r == Ok(values)
    ensures MK.VersionProperty(entity).Some? ==>
      var v := MK.VersionProperty(entity).value;
      var next := IncrementVersion(ValueOf(values, v.name));
      if next.Ok? then r == Ok(values[v.name := Num(next.value)]) else r.Err?
  {
    var v := MK.VersionProperty(entity);
    if v.None? then Ok(values)
    else
      var next :- IncrementVersion(ValueOf(values, v.value.name));
      Ok(values[v.value.name := Num(next)])
  }

  /** `incrementVersion`: on failure the entity is left as it was. */
  method IncrementVersionOf(entity: MK.Entity, bean: Bean) returns (r: Outcome<()>)
    modifies bean
    ensures var next := Incremented(entity, old(bean.properties));
      if next.Ok? then r.Ok? && bean.properties == next.value
      else r.Err? && bean.properties == old(bean.properties)
  {
    var v := MK.VersionProperty(entity);
    if v.None? {
      return Ok(());
    }
    var next := IncrementVersion(bean.Get(v.value.name));
    if next.Err? {
      return Err(next.error);
    }
    bean.SetProperty(v.value.name, Num(next.value));
    return Ok(());
  }

  /** `createMatchingVersionCriteria`: the version column is null or equal
      to the version the entity holds; no version property gives the empty
      criteria. */
  function VersionCriteria(kind: Naming.NamingKind, entity: MK.Entity, values: map<string, Value>)
    : (r: Outcome<C.Criteria>)
    ensures MK.VersionProperty(entity).None? ==> r == Ok(C.EMPTY)
    ensures MK.VersionProperty(entity).Some? ==>
      var v := MK.VersionProperty(entity).value;
      var column := Naming.PropertyColumnName(kind, v);
      var current := ValueOf(values, v.name);
      (r.Ok? <==> !StringKit.BlankString(column)) &&
      (r.Ok? ==> !C.IsEmpty(r.value) && r.value.previous.None? && r.value.column == Some(column) &&
                 r.value.value == current &&
                 r.value.comparator == Some(if current.Null? then C.Comparator.IS_NULL else C.Comparator.EQ))
  {
    var v := MK.VersionProperty(entity);
    if v.None? then Ok(C.EMPTY)
    else
      var step :- C.Where(Naming.PropertyColumnName(kind, v.value));
      var current := ValueOf(values, v.value.name);
      if current.Null? then Ok(C.IsNullStep(step)) else C.Compare(step, C.Comparator.EQ, current)
  }

  // ------------------------------------------------------------ the row

  /** A property whose column the update does not set: an insert-only one,
      or one whose value its validation strategy does not accept. */
  predicate Dropped(global: Validation.ValidationStrategy, entity: MK.Entity, values: map<string, Value>,
                    p: MK.Property) {
    p.insertOnly || !MK.IsPropertyEffective(global, entity, Some(p), ValueOf(values, p.name))
  }

  /** The columns of the dropped properties among `ps`, in order. */
  function DroppedColumns(global: Validation.ValidationStrategy, kind: Naming.NamingKind, entity: MK.Entity,
                          values: map<string, Value>, ps: seq<MK.Property>): seq<string>
  {
    if |ps| == 0 then []
    else
      var p := ps[|ps| - 1];
      DroppedColumns(global, kind, entity, values, ps[..|ps| - 1]) +
        (if Dropped(global, entity, values, p) then [Naming.PropertyColumnName(kind, p)] else [])
  }

  /** One more property extends the dropped columns by its own, if it is
      dropped. */
  lemma DroppedColumnsStep(global: Validation.ValidationStrategy, kind: Naming.NamingKind, entity: MK.Entity,
                           values: map<string, Value>, ps: seq<MK.Property>, i: int)
    requires 0 <= i < |ps|
    ensures DroppedColumns(global, kind, entity, values, ps[..i + 1]) ==
      DroppedColumns(global, kind, entity, values, ps[..i]) +
      (if Dropped(global, entity, values, ps[i]) then [Naming.PropertyColumnName(kind, ps[i])] else [])
  {
    assert ps[..i + 1][..i] == ps[..i];
  }

  /** A column is dropped exactly when some dropped property maps to it. */
  lemma {:induction false} DroppedColumnsMembers(global: Validation.ValidationStrategy, kind: Naming.NamingKind,
                                                 entity: MK.Entity, values: map<string, Value>, ps: seq<MK.Property>)
    ensures forall c :: c in DroppedColumns(global, kind, entity, values, ps) <==>
      exists i :: 0 <= i < |ps| && Dropped(global, entity, values, ps[i]) && Naming.PropertyColumnName(kind, ps[i]) == c
    decreases |ps|
  {
    if |ps| > 0 {
      var init := ps[..|ps| - 1];
      DroppedColumnsMembers(global, kind, entity, values, init);
      assert forall i :: 0 <= i < |init| ==> init[i] == ps[i];
    }
  }

  /** The columns removed once the first `i` properties are looked at: the
      id column, then the dropped ones. */
  function RemovedColumns(global: Validation.ValidationStrategy, kind: Naming.NamingKind, entity: MK.Entity,
                          values: map<string, Value>, idColumn: string, ps: seq<MK.Property>, i: nat)
    : (r: seq<string>)
    requires i <= |ps|
    ensures |r| >= 1 && r[0] == idColumn
  {
    [idColumn] + DroppedColumns(global, kind, entity, values, ps[..i])
  }

  /** Looking at one more property removes its column exactly when it is
      dropped. */
  lemma PruneStep(global: Validation.ValidationStrategy, kind: Naming.NamingKind, entity: MK.Entity,
                  values: map<string, Value>, idColumn: string, ps: seq<MK.Property>, i: nat, initial: seq<Entry>)
    requires i < |ps|
    ensures WithoutAll(initial, RemovedColumns(global, kind, entity, values, idColumn, ps, i + 1)) ==
      if Dropped(global, entity, values, ps[i])
      then Without(WithoutAll(initial, RemovedColumns(global, kind, entity, values, idColumn, ps, i)), Naming.PropertyColumnName(kind, ps[i]))
      else WithoutAll(initial, RemovedColumns(global, kind, entity, values, idColumn, ps, i))
  {
    DroppedColumnsStep(global, kind, entity, values, ps, i);
    var before := RemovedColumns(global, kind, entity, values, idColumn, ps, i);
    var after := RemovedColumns(global, kind, entity, values, idColumn, ps, i + 1);
    if Dropped(global, entity, values, ps[i]) {
      assert after == before + [Naming.PropertyColumnName(kind, ps[i])];
      assert after[..|after| - 1] == before;
    } else {
      assert after == before;
    }
  }

  /** The row pruning of `fetch(entity, parameter)`: the id column is
      removed and returned, then the column of every dropped property. */
  method PruneUpdateRow(global: Validation.ValidationStrategy, kind: Naming.NamingKind, entity: MK.Entity,
                        values: map<string, Value>, idColumn: string, row: OutboundRow)
    returns (id: Option<Parameter>)
    requires row.Valid()
    modifies row
    ensures row.Valid()
    ensures id == Lookup(old(row.entries), idColumn)
    ensures row.entries ==
      WithoutAll(old(row.entries), [idColumn] + DroppedColumns(global, kind, entity, values, entity.properties))
  {
    ghost var initial := row.entries;
    var ps := entity.properties;
    id := row.Remove(idColumn);
    assert [idColumn][..0] == [];
    assert RemovedColumns(global, kind, entity, values, idColumn, ps, 0) == [idColumn] by {
      assert ps[..0] == [];
    }
    for i := 0 to |ps|
      invariant row.Valid()
      invariant row.entries == WithoutAll(initial, RemovedColumns(global, kind, entity, values, idColumn, ps, i))
    {
      PruneStep(global, kind, entity, values, idColumn, ps, i, initial);
      if Dropped(global, entity, values, ps[i]) {
        var removed := row.Remove(Naming.PropertyColumnName(kind, ps[i]));
      }
    }
    assert ps[..|ps|] == ps;
  }

  /** What the update sets: the row's entries except the id column and the
      column of any insert-only or ineffective property. */
  lemma UpdateRowMembers(global: Validation.ValidationStrategy, kind: Naming.NamingKind, entity: MK.Entity,
                         values: map<string, Value>, idColumn: string, entries: seq<Entry>)
    ensures var kept := WithoutAll(entries, [idColumn] + DroppedColumns(global, kind, entity, values, entity.properties));
      forall e :: e in kept <==>
        e in entries && e.0 != idColumn &&
        forall i :: 0 <= i < |entity.properties| && Naming.PropertyColumnName(kind, entity.properties[i]) == e.0 ==>
          !Dropped(global, entity, values, entity.properties[i])
  {
    WithoutAllMembers(entries, [idColumn] + DroppedColumns(global, kind, entity, values, entity.properties));
    DroppedColumnsMembers(global, kind, entity, values, entity.properties);
  }

  // ------------------------------------------------------------ the criteria

  const NULL_VALUE_MESSAGE := "Value must not be null"

  /** `where(idColumn).is(id)`, joined with `.and(versionCriteria)` when the
      entity is versioned. The removed id parameter is missing when the row
      had no id column, and then `is` refuses it. */
  function IdCriteria(idColumn: string, id: Option<Parameter>, versionCriteria: Option<C.Criteria>)
    : (r: Outcome<C.Criteria>)
    ensures r.Ok? <==> !StringKit.BlankString(idColumn) && id.Some?
    ensures r.Ok? ==> !C.IsEmpty(r.value)
    ensures r.Ok? ==>
      var byId := C.Complete(C.Step(None, C.Combinator.INITIAL, idColumn), C.Comparator.EQ, id.value.value);
      if versionCriteria.None? then r.value == byId
      else r.value.previous == Some(byId) && r.value.combinator == C.Combinator.AND &&
           r.value.group == [versionCriteria.value]
  {
    var step :- C.Where(idColumn);
    if id.None? then Err(IllegalArgument(NULL_VALUE_MESSAGE))
    else
      var byId := C.Complete(step, C.Comparator.EQ, id.value.value);
      if versionCriteria.None? then Ok(byId) else Ok(C.AndGroup(byId, [versionCriteria.value]))
  }

  /** The `UpdateSpec`: a table, the columns to set and the criteria, if
      any. */
  datatype UpdateSpec = UpdateSpec(table: string, assignments: seq<Entry>, criteria: Option<C.Criteria>)

  /** `doFetch`: the criteria is attached only when it is present and not
      empty; without it the update touches every row. */
  function UpdateSpecFor(table: string, assignments: seq<Entry>, criteria: Option<C.Criteria>): (r: UpdateSpec)
    ensures r.table == table && r.assignments == assignments
    ensures r.criteria.Some? <==> criteria.Some? && !C.IsEmpty(criteria.value)
    ensures r.criteria.Some? ==> r.criteria == criteria
  {
    if criteria.Some? && !C.IsEmpty(criteria.value) then UpdateSpec(table, assignments, criteria)
    else UpdateSpec(table, assignments, None)
  }

  /** `fetch(parameter)`: an update by query, whose criteria defaults to the
      empty one, so an update without criteria has no restriction. */
  lemma QueryUpdateWithoutCriteria(table: string, assignments: seq<Entry>)
    ensures UpdateSpecFor(table, assignments, Some(C.EMPTY)).criteria.None?
  {
  }

  // ------------------------------------------------------------ the outcome

  function VersionMismatchMessage(table: string, id: Value): string {
    "Failed to update table [" + table + "]; Version does not match for row with Id [" + ToString(id) + "]"
  }

  function MissingRowMessage(table: string, id: Value): string {
    "Failed to update table [" + table + "]; Row with Id [" + ToString(id) + "] does not exist"
  }

  /** `updateHandler`: any number of updated rows but 0 passes; 0 rows is an
      optimistic locking failure for a versioned entity and a missing row
      otherwise. */
  function UpdateOutcome(rowsUpdated: int, versioned: bool, table: string, id: Value): (r: Outcome<int>)
    ensures r.Ok? <==> rowsUpdated != 0
    ensures r.Ok? ==> r.value == rowsUpdated
    ensures r.Err? && versioned ==> r.error == OptimisticLockingFailure(VersionMismatchMessage(table, id))
    ensures r.Err? && !versioned ==> r.error == TransientDataAccessResource(MissingRowMessage(table, id))
  {
    if rowsUpdated != 0 then Ok(rowsUpdated)
    else if versioned then Err(OptimisticLockingFailure(VersionMismatchMessage(table, id)))
    else Err(TransientDataAccessResource(MissingRowMessage(table, id)))
  }

  // ------------------------------------------------------------ the update

  const NO_ID_MESSAGE := "Required identifier property not found"

  /** The update part of `fetch(entity, parameter)`, without the callbacks:
      the version criteria is taken from the entity before its version is
      incremented, the entity is converted to a row by `write`, the row is
      pruned and the spec built. */
  method PrepareUpdate(global: Validation.ValidationStrategy, kind: Naming.NamingKind, entity: MK.Entity,
                       table: string, bean: Bean, write: map<string, Value> -> seq<Entry>)
    returns (r: Outcome<UpdateSpec>)
    requires forall values :: DistinctColumns(write(values))
    modifies bean
    ensures r.Ok? ==> r.value.criteria.Some? && !C.IsEmpty(r.value.criteria.value)
    ensures r.Ok? ==> MK.IdProperty(entity).Some?
    ensures r.Ok? ==>
      var idColumn := Naming.PropertyColumnName(kind, MK.IdProperty(entity).value);
      r.value.table == table &&
      r.value.assignments ==
        WithoutAll(write(bean.properties),
                   [idColumn] + DroppedColumns(global, kind, entity, bean.properties, entity.properties))
    ensures var next := Incremented(entity, old(bean.properties));
      if next.Ok? && VersionCriteria(kind, entity, old(bean.properties)).Ok? then bean.properties == next.value
      else bean.properties == old(bean.properties)
    ensures var next := Incremented(entity, old(bean.properties));
      var id := MK.IdProperty(entity);
      r.Ok? <==>
        VersionCriteria(kind, entity, old(bean.properties)).Ok? && next.Ok? && id.Some? &&
        !StringKit.BlankString(Naming.PropertyColumnName(kind, id.value)) &&
        Lookup(write(next.value), Naming.PropertyColumnName(kind, id.value)).Some?
    ensures r.Ok? ==>
      var idColumn := Naming.PropertyColumnName(kind, MK.IdProperty(entity).value);
      var matching := VersionCriteria(kind, entity, old(bean.properties));
      var versionCriteria := if MK.VersionProperty(entity).Some? && matching.Ok? then Some(matching.value) else None;
      (MK.VersionProperty(entity).Some? ==> matching.Ok?) &&
      var criteria := IdCriteria(idColumn, Lookup(write(bean.properties), idColumn), versionCriteria);
      criteria.Ok? && r.value.criteria == Some(criteria.value)
    ensures MK.IdProperty(entity).None? ==> r.Err?
  {
    var versionCriteria: Option<C.Criteria> := None;
    if MK.VersionProperty(entity).Some? {
      var matching := VersionCriteria(kind, entity, bean.properties);
      if matching.Err? {
        return Err(matching.error);
      }
      versionCriteria := Some(matching.value);
      var incremented := IncrementVersionOf(entity, bean);
      if incremented.Err? {
        return Err(incremented.error);
      }
    }
    var row := new OutboundRow(write(bean.properties));
    var idProperty := MK.IdProperty(entity);
    if idProperty.None? {
      return Err(IllegalState(NO_ID_MESSAGE));
    }
    var idColumn := Naming.PropertyColumnName(kind, idProperty.value);
    var id := PruneUpdateRow(global, kind, entity, bean.properties, idColumn, row);
    var criteria := IdCriteria(idColumn, id, versionCriteria);
    if criteria.Err? {
      return Err(criteria.error);
    }
    r := Ok(UpdateSpecFor(table, row.entries, Some(criteria.value)));
  }

  /** An entity update never sets its id column or the column of an
      insert-only property. */
  lemma UpdateNeverSetsIdOrInsertOnly(global: Validation.ValidationStrategy, kind: Naming.NamingKind,
                                      entity: MK.Entity, values: map<string, Value>, idColumn: string,
                                      entries: seq<Entry>)
    ensures var kept := WithoutAll(entries, [idColumn] + DroppedColumns(global, kind, entity, values, entity.properties));
      forall e :: e in kept ==> (e.0 != idColumn &&
        forall i :: 0 <= i < |entity.properties| && entity.properties[i].insertOnly ==>
          Naming.PropertyColumnName(kind, entity.properties[i]) != e.0)
  {
    UpdateRowMembers(global, kind, entity, values, idColumn, entries);
  }
}

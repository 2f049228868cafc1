/** The mapping metadata an entity class carries (its `@TableEntity`,
    `@TableId`, `@TableColumn` and `@TableLogic` annotations) and the
    decisions `R2dbcMappingKit` takes from it: whether a property exists in
    the table, which validation strategy applies to it, and whether and how
    logic deletion applies to the entity. The global configuration, which the
    source reads from static fields filled by `init()`, is a parameter. */
module MappingKit {
  import opened Wrappers
  import opened JavaValues
  import opened Validation

  /** A type handler class, as named by `@TableColumn.typeHandler` or as
      the runtime class of a handler: the markers `DefaultHandler` and
      `IgnoreHandler`, `R2dbcEnumTypeHandler`, the abstract
      `R2dbcJsonTypeHandler`, its subclasses `R2dbcJacksonTypeHandler` and
      `R2dbcPostgresJsonTypeHandler`, or any other class by name. */
  datatype HandlerClass =
    | DefaultHandler | IgnoreHandler | EnumHandler | JsonHandler | JacksonHandler | PostgresJsonHandler
    | CustomHandler(className: string)

  /** Id strategies: `DEFAULT` defers to the global setting, `USE_GENERATOR`
      asks for a generated id; any other constant is kept by name. */
  datatype IdStrategy = DEFAULT | USE_GENERATOR | OtherStrategy(strategyName: string)

  datatype TableColumn = TableColumn(
    name: string, alias: string, functionName: string, prefix: string, fromTable: string,
    columnExists: bool, isJson: bool, validationPolicy: ValidationStrategy, typeHandler: HandlerClass)

  datatype TableId = TableId(name: string, idStrategy: IdStrategy, validationPolicy: ValidationStrategy)

  datatype TableEntity = TableEntity(
    name: string, schema: string, alias: string, prefix: string,
    isAggregate: bool, validationPolicy: ValidationStrategy)

  /** A logic-delete value as configured: a plain object, or a
      `LogicDelete.Value` wrapper that is unwrapped before use. */
  datatype LogicValue = Plain(value: Value) | Wrapped(inner: Value)

  datatype TableLogic = TableLogic(enable: bool, deleteValue: LogicValue, undeleteValue: LogicValue)

  /** The Java type of a property, as far as the mapping rules look at it. */
  datatype JavaType = JavaType(simpleName: string, isEnum: bool, isPrimitive: bool)

  /** A persistent property with the annotations found on its field;
      `fieldName` is `None` for a property without a backing field. */
  datatype Property = Property(
    name: string, fieldName: Option<string>, isId: bool, isVersion: bool, insertOnly: bool, javaType: JavaType,
    column: Option<TableColumn>, id: Option<TableId>, logic: Option<TableLogic>)

  /** A persistent entity: its class names, its `@TableEntity` and its
      properties in declaration order. */
  datatype Entity = Entity(
    className: string, simpleName: string, annotation: Option<TableEntity>, properties: seq<Property>)

  /** The global logic-delete configuration. */
  datatype LogicDeleteConfig = LogicDeleteConfig(
    enable: bool, field: string, undeleteValue: LogicValue, deleteValue: LogicValue)

  /** Which of the two logic-delete values is asked for. */
  datatype LogicDeleteValue = UNDELETE_VALUE | DELETE_VALUE

  /** `isAggregateEntity`: the entity is annotated and marked aggregate. */
  predicate IsAggregateEntity(entity: Option<Entity>)
    ensures IsAggregateEntity(entity) ==> entity.Some? && entity.value.annotation.Some?
  {
    entity.Some? && entity.value.annotation.Some? && entity.value.annotation.value.isAggregate
  }

  /** `isPropertyExists`: a missing property is not a column, an id always
      is, any other property only when its `@TableColumn` says it exists. */
  predicate IsPropertyExists(property: Option<Property>) {
    match property
    case None => false
    case Some(p) => p.isId || (p.column.Some? && p.column.value.columnExists)
  }

  /** `isFunctionProperty`: the property's `@TableColumn` names a function. */
  predicate IsFunctionProperty(property: Property) {
    property.column.Some? && property.column.value.functionName != ""
  }

  /** A virtual property, one without `@TableColumn` or with `exists =
      false`, is projected only when it is the id. */
  lemma VirtualPropertyExistsOnlyAsId(p: Property)
    requires p.column.None? || !p.column.value.columnExists
    ensures IsPropertyExists(Some(p)) <==> p.isId
    ensures !IsPropertyExists(None)
  {
  }

  /** One step of the precedence chain: a strategy other than `DEFAULT`
      overrides the one chosen so far. */
  function Override(current: ValidationStrategy, policy: Option<ValidationStrategy>): (r: ValidationStrategy)
    ensures policy.Some? && policy.value != Validation.DEFAULT ==> r == policy.value
    ensures policy.None? || policy.value == Validation.DEFAULT ==> r == current
  {
    if policy.Some? && policy.value != Validation.DEFAULT then policy.value else current
  }

  function EntityPolicy(entity: Entity): Option<ValidationStrategy> {
    if entity.annotation.Some? then Some(entity.annotation.value.validationPolicy) else None
  }

  function IdPolicy(p: Property): Option<ValidationStrategy> {
    if p.id.Some? then Some(p.id.value.validationPolicy) else None
  }

  function ColumnPolicy(p: Property): Option<ValidationStrategy> {
    if p.column.Some? then Some(p.column.value.validationPolicy) else None
  }

  /** The strategy `isPropertyEffective` applies: the global one, overridden
      in turn by the entity's, the id's and the column's annotation. */
  function EffectiveStrategy(global: ValidationStrategy, entity: Entity, p: Property): ValidationStrategy {
    Override(Override(Override(global, EntityPolicy(entity)), IdPolicy(p)), ColumnPolicy(p))
  }

  /** The first non-`DEFAULT` strategy of a list, `fallback` when there is
      none: the reference reading of "column > id > entity > global". */
  function FirstSet(policies: seq<Option<ValidationStrategy>>, fallback: ValidationStrategy): (r: ValidationStrategy)
    ensures r == fallback || exists i :: 0 <= i < |policies| && policies[i] == Some(r)
  {
    if |policies| == 0 then fallback
    else if policies[0].Some? && policies[0].value != Validation.DEFAULT then policies[0].value
    else FirstSet(policies[1..], fallback)
  }

  /** The override chain picks the most specific annotation that sets a
      strategy: column, then id, then entity, then the global setting. */
  lemma EffectiveStrategyPrecedence(global: ValidationStrategy, entity: Entity, p: Property)
    ensures EffectiveStrategy(global, entity, p) ==
      FirstSet([ColumnPolicy(p), IdPolicy(p), EntityPolicy(entity)], global)
    ensures EffectiveStrategy(global, entity, p) == Validation.DEFAULT ==> global == Validation.DEFAULT
  {
    var one := [EntityPolicy(entity)];
    var two := [IdPolicy(p), EntityPolicy(entity)];
    var three := [ColumnPolicy(p), IdPolicy(p), EntityPolicy(entity)];
    assert one[1..] == [] && two[1..] == one && three[1..] == two;
    assert FirstSet(one, global) == Override(global, EntityPolicy(entity));
    assert FirstSet(two, global) == Override(FirstSet(one, global), IdPolicy(p));
    assert FirstSet(three, global) == Override(FirstSet(two, global), ColumnPolicy(p));
  }

  /** `isPropertyEffective`: a missing property is never effective; a
      present one is judged by the strategy precedence picks. */
  predicate IsPropertyEffective(global: ValidationStrategy, entity: Entity, property: Option<Property>, value: Value)
  {
    property.Some? && IsEffective(EffectiveStrategy(global, entity, property.value), value)
  }

  /** A column that sets `NOT_NULL` rejects null whatever the entity and the
      global setting say; a `DEFAULT` column leaves the decision to the rest. */
  lemma ColumnPolicyWins(global: ValidationStrategy, entity: Entity, p: Property, value: Value)
    ensures p.column.Some? && p.column.value.validationPolicy == NOT_NULL ==>
      (IsPropertyEffective(global, entity, Some(p), value) <==> value != Null)
    ensures p.column.Some? && p.column.value.validationPolicy == Validation.DEFAULT ==>
      IsPropertyEffective(global, entity, Some(p), value) ==
      IsPropertyEffective(global, entity, Some(p.(column := None)), value)
    ensures !IsPropertyEffective(global, entity, None, value)
  {
  }

  /** `getPersistentProperty(TableLogic.class)`: the first property carrying
      `@TableLogic`. */
  function LogicProperty(properties: seq<Property>): (r: Option<Property>)
    ensures r.Some? ==> r.value in properties && r.value.logic.Some?
    ensures r.None? <==> forall i :: 0 <= i < |properties| ==> properties[i].logic.None?
    ensures r.Some? ==> exists i :: (0 <= i < |properties| && properties[i] == r.value &&
      forall j :: 0 <= j < i ==> properties[j].logic.None?)
  {
    if |properties| == 0 then None
    else if properties[0].logic.Some? then Some(properties[0])
    else
      var rest := LogicProperty(properties[1..]);
      assert forall i :: 1 <= i < |properties| ==> properties[i] == properties[1..][i - 1];
      if rest.Some? then
        ghost var k :| 0 <= k < |properties[1..]| && properties[1..][k] == rest.value &&
          forall j :: 0 <= j < k ==> properties[1..][j].logic.None?;
        assert properties[k + 1] == rest.value;
        assert forall j :: 0 <= j < k + 1 ==> properties[j].logic.None? by {
          forall j | 0 <= j < k + 1 ensures properties[j].logic.None? {
            if j > 0 { assert properties[j] == properties[1..][j - 1]; }
          }
        }
        rest
      else rest
  }

  /** `isLogicDeleteEnable`: the caller's ignore flag wins, then the
      entity's `@TableLogic` property, then the global switch, which also
      needs a field name. */
  predicate IsLogicDeleteEnable(config: LogicDeleteConfig, entity: Entity, ignoreLogicDelete: bool) {
    if ignoreLogicDelete then false
    else
      var logic := LogicProperty(entity.properties);
      if logic.None? then config.enable && config.field != ""
      else logic.value.logic.value.enable
  }

  /** The three cases of the enable rule. */
  lemma LogicDeleteEnableRule(config: LogicDeleteConfig, entity: Entity, ignoreLogicDelete: bool)
    ensures ignoreLogicDelete ==> !IsLogicDeleteEnable(config, entity, ignoreLogicDelete)
    ensures !ignoreLogicDelete && (forall i :: 0 <= i < |entity.properties| ==> entity.properties[i].logic.None?) ==>
      (IsLogicDeleteEnable(config, entity, ignoreLogicDelete) <==> config.enable && config.field != "")
    ensures !ignoreLogicDelete && entity.properties != [] && entity.properties[0].logic.Some? ==>
      (IsLogicDeleteEnable(config, entity, ignoreLogicDelete) <==> entity.properties[0].logic.value.enable)
  {
  }

  /** The value a `LogicDelete.Value` wrapper stands for. */
  function Unwrap(v: LogicValue): Value {
    match v
    case Plain(value) => value
    case Wrapped(inner) => inner
  }

  function Pick(which: LogicDeleteValue, deleteValue: LogicValue, undeleteValue: LogicValue): LogicValue {
    match which
    case DELETE_VALUE => deleteValue
    case UNDELETE_VALUE => undeleteValue
  }

  /** `getLogicDeleteColumn`: the column name and the value to write, taken
      from the entity's `@TableLogic` property when there is one and from the
      global configuration otherwise. */
  function LogicDeleteColumn(config: LogicDeleteConfig, entity: Entity, which: LogicDeleteValue): (r: (string, Value))
  {
    var logic := LogicProperty(entity.properties);
    if logic.Some? then
      var annotation := logic.value.logic.value;
      (logic.value.name, Unwrap(Pick(which, annotation.deleteValue, annotation.undeleteValue)))
    else
      (config.field, Unwrap(Pick(which, config.deleteValue, config.undeleteValue)))
  }

  /** The annotation overrides both the field name and the value; without it
      the global field and value are used, and in both cases a wrapped value
      is unwrapped. */
  lemma LogicDeleteColumnSource(config: LogicDeleteConfig, entity: Entity, which: LogicDeleteValue)
    ensures (forall i :: 0 <= i < |entity.properties| ==> entity.properties[i].logic.None?) ==>
      LogicDeleteColumn(config, entity, which) ==
      (config.field, Unwrap(if which == DELETE_VALUE then config.deleteValue else config.undeleteValue))
    ensures forall i :: (0 <= i < |entity.properties| && entity.properties[i].logic.Some? &&
                         (forall j :: 0 <= j < i ==> entity.properties[j].logic.None?)) ==>
                        var annotation := entity.properties[i].logic.value;
                        LogicDeleteColumn(config, entity, which) ==
                        (entity.properties[i].name,
                         Unwrap(if which == DELETE_VALUE then annotation.deleteValue else annotation.undeleteValue))
  {
    forall i | 0 <= i < |entity.properties| && entity.properties[i].logic.Some? &&
      (forall j :: 0 <= j < i ==> entity.properties[j].logic.None?)
      ensures var annotation := entity.properties[i].logic.value;
        LogicDeleteColumn(config, entity, which) ==
        (entity.properties[i].name,
         Unwrap(if which == DELETE_VALUE then annotation.deleteValue else annotation.undeleteValue))
    {
      FirstLogicIsUnique(entity.properties, i);
    }
  }

  /** The first `@TableLogic` property is the one at the first index that
      carries the annotation. */
  lemma {:induction false} FirstLogicIsUnique(properties: seq<Property>, i: int)
    requires 0 <= i < |properties| && properties[i].logic.Some?
    requires forall j :: 0 <= j < i ==> properties[j].logic.None?
    ensures LogicProperty(properties) == Some(properties[i])
    decreases i
  {
    if i > 0 {
      assert properties[0].logic.None?;
      FirstLogicIsUnique(properties[1..], i - 1);
    }
  }

  // ------------------------------------------------------------ property lookup

  /** The index of the first property `marked` picks, in declaration order. */
  function FirstIndex(properties: seq<Property>, marked: Property -> bool): (r: Option<nat>)
    ensures r.Some? ==> r.value < |properties| && marked(properties[r.value])
    ensures r.Some? ==> forall j :: 0 <= j < r.value ==> !marked(properties[j])
    ensures r.None? ==> forall j :: 0 <= j < |properties| ==> !marked(properties[j])
  {
    if |properties| == 0 then None
    else if marked(properties[0]) then Some(0)
    else
      var rest := FirstIndex(properties[1..], marked);
      assert forall j :: 1 <= j < |properties| ==> properties[j] == properties[1..][j - 1];
      if rest.Some? then Some(rest.value + 1) else None
  }

  function FirstWith(properties: seq<Property>, marked: Property -> bool): (r: Option<Property>)
    ensures r.Some? ==> r.value in properties && marked(r.value)
    ensures r.None? ==> forall j :: 0 <= j < |properties| ==> !marked(properties[j])
  {
    var i := FirstIndex(properties, marked);
    if i.Some? then Some(properties[i.value]) else None
  }

  /** `getIdProperty`: the entity's id property, if it has one. */
  function IdProperty(entity: Entity): (r: Option<Property>)
    ensures r.Some? ==> r.value in entity.properties && r.value.isId
    ensures r.None? ==> forall j :: 0 <= j < |entity.properties| ==> !entity.properties[j].isId
  {
    FirstWith(entity.properties, (p: Property) => p.isId)
  }

  /** `getVersionProperty`: the entity's `@Version` property, if it has one. */
  function VersionProperty(entity: Entity): (r: Option<Property>)
    ensures r.Some? ==> r.value in entity.properties && r.value.isVersion
    ensures r.None? ==> forall j :: 0 <= j < |entity.properties| ==> !entity.properties[j].isVersion
  {
    FirstWith(entity.properties, (p: Property) => p.isVersion)
  }

  /** `getPersistentProperty(name)`: the property called `name`, if any. */
  function PropertyNamed(entity: Entity, name: string): (r: Option<Property>)
    ensures r.Some? ==> r.value in entity.properties && r.value.name == name
    ensures r.None? ==> forall j :: 0 <= j < |entity.properties| ==> entity.properties[j].name != name
  {
    FirstWith(entity.properties, (p: Property) => p.name == name)
  }
}
